/** The Proxmox tag scheme of internal/tags, and the owner-tag check of internal/config. */
module Tags {
  import opened Common

  const MARKER := "gh-scaleset"
  const OWNER_PREFIX := "gh-scaleset-owner-"
  const PROFILE_PREFIX := "gh-scaleset-profile-"
  const TEMPLATE_PREFIX := "gh-scaleset-template-"
  const TEMPLATE_STABLE := "stable"

  // ------------------------------------------------------------------
  // Strings
  // ------------------------------------------------------------------

  predicate IsSpace(c: char) {
    || '\t' <= c <= '\r' || c == ' ' || c == '\U{85}' || c == '\U{A0}' || c == '\U{1680}'
    || '\U{2000}' <= c <= '\U{200A}' || c == '\U{2028}' || c == '\U{2029}' || c == '\U{202F}' || c == '\U{205F}' ||
      c == '\U{3000}'
  }

  /** The code points with the Unicode property White_Space, one by one. */
  lemma SpacesExactly(c: char)
    ensures IsSpace(c) <==> c in {
      '\t', '\n', '\U{B}', '\U{C}', '\r', ' ', '\U{85}', '\U{A0}', '\U{1680}', '\U{2000}', '\U{2001}', '\U{2002}',
      '\U{2003}', '\U{2004}', '\U{2005}', '\U{2006}', '\U{2007}', '\U{2008}', '\U{2009}', '\U{200A}', '\U{2028}',
      '\U{2029}', '\U{202F}', '\U{205F}', '\U{3000}'}
  {}

  function TrimLeft(s: string): string { if s != "" && IsSpace(s[0]) then TrimLeft(s[1..]) else s }

  function TrimRight(s: string): string { if s != "" && IsSpace(s[|s| - 1]) then TrimRight(s[..|s| - 1]) else s }

  function TrimSpace(s: string): string { TrimRight(TrimLeft(s)) }

  lemma {:induction false} TrimLeftSpec(s: string)
    ensures var t := TrimLeft(s); t == "" || !IsSpace(t[0])
    ensures forall c :: c in TrimLeft(s) ==> c in s
    ensures forall c :: c in s && !IsSpace(c) ==> c in TrimLeft(s)
  {
    if s != "" && IsSpace(s[0]) {
      TrimLeftSpec(s[1..]);
      assert s == [s[0]] + s[1..];
    }
  }

  lemma {:induction false} TrimRightSpec(s: string)
    ensures var t := TrimRight(s); t <= s && (t == "" || !IsSpace(t[|t| - 1]))
    ensures forall c :: c in s && !IsSpace(c) ==> c in TrimRight(s)
  {
    if s != "" && IsSpace(s[|s| - 1]) {
      TrimRightSpec(s[..|s| - 1]);
      assert s == s[..|s| - 1] + [s[|s| - 1]];
    }
  }

  predicate Trimmed(s: string) { s == "" || (!IsSpace(s[0]) && !IsSpace(s[|s| - 1])) }

  /** Trimming removes white space at the ends and nothing else. */
  lemma TrimSpaceSpec(s: string)
    ensures Trimmed(TrimSpace(s))
    ensures forall c :: c in TrimSpace(s) ==> c in s
    ensures forall c :: c in s && !IsSpace(c) ==> c in TrimSpace(s)
    ensures Trimmed(s) ==> TrimSpace(s) == s
  {
    TrimLeftSpec(s);
    TrimRightSpec(TrimLeft(s));
  }

  lemma {:induction false} TrimLeftAt(s: string) returns (i: nat)
    ensures i <= |s| && TrimLeft(s) == s[i..] && forall k :: 0 <= k < i ==> IsSpace(s[k])
  {
    if s != "" && IsSpace(s[0]) {
      var rest := TrimLeftAt(s[1..]);
      i := rest + 1;
      assert forall k :: 0 < k < i ==> s[k] == s[1..][k - 1];
    } else {
      i := 0;
    }
  }

  lemma {:induction false} TrimRightAt(s: string) returns (j: nat)
    ensures j <= |s| && TrimRight(s) == s[..j] && forall k :: j <= k < |s| ==> IsSpace(s[k])
  {
    if s != "" && IsSpace(s[|s| - 1]) {
      j := TrimRightAt(s[..|s| - 1]);
      assert s[..|s| - 1][..j] == s[..j];
    } else {
      j := |s|;
    }
  }

  /** Trimming cuts out the middle, and cuts off white space only. */
  lemma TrimSpaceExactly(s: string) returns (i: nat, j: nat)
    ensures i <= j <= |s| && TrimSpace(s) == s[i..j]
    ensures forall k :: 0 <= k < i || j <= k < |s| ==> IsSpace(s[k])
  {
    hide IsSpace, TrimLeft, TrimRight;
    i := TrimLeftAt(s);
    var n := TrimRightAt(s[i..]);
    j := i + n;
    assert s[i..][..n] == s[i..j];
    forall k | j <= k < |s| ensures IsSpace(s[k]) {
      assert s[k] == s[i..][k - i];
    }
  }

  /** Byte-wise order of UTF-8, which is the order of code points. */
  predicate Less(a: string, b: string) {
    b != "" && (a == "" || a[0] < b[0] || (a[0] == b[0] && Less(a[1..], b[1..])))
  }

  /** The first place where they differ decides, and a proper prefix comes first. */
  lemma {:induction false} LessExactly(a: string, b: string)
    ensures Less(a, b) <==> exists k: nat :: FirstDifference(a, b, k)
  {
    if b != "" && a != "" && a[0] == b[0] {
      LessExactly(a[1..], b[1..]);
      assert a == [a[0]] + a[1..] && b == [b[0]] + b[1..];
      if k: nat :| FirstDifference(a[1..], b[1..], k) {
        assert a[..k + 1] == [a[0]] + a[1..][..k] && b[..k + 1] == [b[0]] + b[1..][..k];
        assert FirstDifference(a, b, k + 1);
      }
      if k: nat :| FirstDifference(a, b, k) {
        assert k > 0 && a[1..][..k - 1] == a[..k][1..] && b[1..][..k - 1] == b[..k][1..];
        assert FirstDifference(a[1..], b[1..], k - 1);
      }
    } else {
      if Less(a, b) {
        assert FirstDifference(a, b, 0);
      }
      if k: nat :| FirstDifference(a, b, k) {
        if k > 0 {
          SameHead(a, b, k);
        }
      }
    }
  }

  lemma SameHead(a: string, b: string, k: nat)
    requires 0 < k <= |a| && k < |b| && a[..k] == b[..k]
    ensures a[0] == b[0]
  {
    assert a[..k][0] == b[..k][0];
  }

  predicate FirstDifference(a: string, b: string, k: nat) {
    k <= |a| && k < |b| && a[..k] == b[..k] && (k == |a| || a[k] < b[k])
  }

  lemma {:induction false} LessTotal(a: string, b: string)
    ensures Less(a, b) || a == b || Less(b, a)
    ensures !(Less(a, b) && Less(b, a)) && (a == b ==> !Less(a, b))
  {
    if a != "" && b != "" {
      LessTotal(a[1..], b[1..]);
      assert a == [a[0]] + a[1..] && b == [b[0]] + b[1..];
    }
  }

  lemma {:induction false} LessTransitive(a: string, b: string, c: string)
    requires Less(a, b) && Less(b, c)
    ensures Less(a, c)
  {
    if a != "" {
      if a[0] == b[0] && b[0] == c[0] {
        LessTransitive(a[1..], b[1..], c[1..]);
      }
    }
  }

  // ------------------------------------------------------------------
  // Canonical form: trimmed, not empty, sorted, without duplicates
  // ------------------------------------------------------------------

  predicate StrictlySorted(ss: seq<string>) {
    forall i, j :: 0 <= i < j < |ss| ==> Less(ss[i], ss[j])
  }

  function InsertTag(t: string, ss: seq<string>): seq<string> {
    if ss == [] then [t]
    else if t == ss[|ss| - 1] then ss
    else if Less(ss[|ss| - 1], t) then ss + [t]
    else InsertTag(t, ss[..|ss| - 1]) + [ss[|ss| - 1]]
  }

  function Canonical(tags: seq<string>): seq<string> {
    if tags == [] then []
    else
      var init, t := Canonical(tags[..|tags| - 1]), TrimSpace(tags[|tags| - 1]);
      if t == "" then init else InsertTag(t, init)
  }

  lemma {:induction false} InsertTagSpec(t: string, ss: seq<string>)
    requires StrictlySorted(ss)
    ensures StrictlySorted(InsertTag(t, ss))
    ensures forall x :: x in InsertTag(t, ss) <==> x == t || x in ss
    decreases |ss|
  {
    if ss != [] {
      var init, last := ss[..|ss| - 1], ss[|ss| - 1];
      assert ss == init + [last];
      LessTotal(t, last);
      if t == last {
      } else if Less(last, t) {
        forall i | 0 <= i < |init| ensures Less(ss[i], t) {
          LessTransitive(ss[i], last, t);
        }
      } else {
        InsertTagSpec(t, init);
        var rest := InsertTag(t, init);
        forall i | 0 <= i < |rest| ensures Less(rest[i], last) {
          assert rest[i] == t || rest[i] in init;
        }
      }
    }
  }

  /** A tag of the canonical form comes from a given tag. */
  ghost predicate ComesFrom(x: string, tags: seq<string>) {
    x != "" && exists i :: 0 <= i < |tags| && TrimSpace(tags[i]) == x
  }

  lemma {:induction false} CanonicalSpec(tags: seq<string>)
    ensures StrictlySorted(Canonical(tags))
    ensures forall x :: x in Canonical(tags) <==> ComesFrom(x, tags)
  {
    hide TrimSpace, Less, InsertTag;
    if tags != [] {
      var n := |tags| - 1;
      var t := TrimSpace(tags[n]);
      CanonicalSpec(tags[..n]);
      assert forall x :: ComesFrom(x, tags) <==> ComesFrom(x, tags[..n]) || (x == t && t != "") by {
        forall x | ComesFrom(x, tags[..n]) ensures ComesFrom(x, tags) {
          var i :| 0 <= i < n && TrimSpace(tags[..n][i]) == x;
          assert TrimSpace(tags[i]) == x;
        }
        forall x | ComesFrom(x, tags) && x != t ensures ComesFrom(x, tags[..n]) {
          var i :| 0 <= i < |tags| && TrimSpace(tags[i]) == x;
          assert TrimSpace(tags[..n][i]) == x;
        }
      }
      if t != "" {
        InsertTagSpec(t, Canonical(tags[..n]));
      }
    }
  }

  /** A strictly sorted list is determined by its elements. */
  lemma {:induction false} SortedUnique(a: seq<string>, b: seq<string>)
    requires StrictlySorted(a) && StrictlySorted(b)
    requires forall x :: x in a <==> x in b
    ensures a == b
    decreases |a|
  {
    HasFirst(a);
    HasFirst(b);
    if a != [] && b != [] {
      hide Less;
      var p, q := a[|a| - 1], b[|b| - 1];
      LastIsLargest(a, q);
      LastIsLargest(b, p);
      LessTotal(p, q);
      var a', b' := a[..|a| - 1], b[..|b| - 1];
      LastIsNew(a);
      LastIsNew(b);
      assert a == a' + [p] && b == b' + [q] && p == q;
      forall x ensures x in a' <==> x in b' {
        assert x in a' <==> x in a && x != p;
        assert x in b' <==> x in b && x != q;
      }
      SortedUnique(a', b');
    }
  }

  lemma HasFirst(a: seq<string>)
    ensures a != [] ==> a[0] in a
  {}

  lemma LastIsLargest(a: seq<string>, x: string)
    requires StrictlySorted(a) && x in a
    ensures x == a[|a| - 1] || Less(x, a[|a| - 1])
  {}

  lemma LastIsNew(a: seq<string>)
    requires StrictlySorted(a) && a != []
    ensures a[|a| - 1] !in a[..|a| - 1]
  {
    LessTotal(a[|a| - 1], a[|a| - 1]);
  }

  // ------------------------------------------------------------------
  // The wire format
  // ------------------------------------------------------------------

  function Join(ss: seq<string>): string {
    if ss == [] then ""
    else if |ss| == 1 then ss[0]
    else Join(ss[..|ss| - 1]) + ";" + ss[|ss| - 1]
  }

  /** The pieces between semicolons; always at least one. */
  function Split(s: string): (parts: seq<string>)
    ensures parts != []
  {
    if s == "" then [""]
    else
      var parts := Split(s[..|s| - 1]);
      if s[|s| - 1] == ';' then parts + [""]
      else parts[..|parts| - 1] + [parts[|parts| - 1] + [s[|s| - 1]]]
  }

  function Kept(parts: seq<string>): seq<string> {
    if parts == [] then []
    else
      var t := TrimSpace(parts[|parts| - 1]);
      Kept(parts[..|parts| - 1]) + if t == "" then [] else [t]
  }

  function Encode(tags: seq<string>): string { Join(Canonical(tags)) }

  function Decode(s: string): seq<string> { if s == "" then [] else Kept(Split(s)) }

  /** Collects the distinct trimmed tags, sorts them and joins them. */
  method EncodeTags(tags: seq<string>) returns (wire: string)
    ensures wire == Encode(tags)
  {
    hide TrimSpace, Less, Canonical;
    var uniq: set<string> := {};
    for i := 0 to |tags|
      invariant forall x :: x in uniq <==> ComesFrom(x, tags[..i])
    {
      var t := TrimSpace(tags[i]);
      OneMoreTag(tags, i);
      if t != "" {
        uniq := uniq + {t};
      }
    }
    assert tags[..|tags|] == tags;
    var out: seq<string> := [];
    var left := uniq;
    while left != {}
      invariant left <= uniq && StrictlySorted(out)
      invariant forall x :: x in out <==> x in uniq && x !in left
      decreases left
    {
      var t := PickAny(left);
      InsertTagSpec(t, out);
      out := InsertTag(t, out);
      left := left - {t};
    }
    CanonicalSpec(tags);
    SortedUnique(out, Canonical(tags));
    wire := Join(out);
  }

  lemma OneMoreTag(tags: seq<string>, i: nat)
    requires i < |tags|
    ensures forall x :: ComesFrom(x, tags[..i + 1]) <==> ComesFrom(x, tags[..i]) || (x == TrimSpace(tags[i]) && x != "")
  {
    hide TrimSpace;
    var more, less := tags[..i + 1], tags[..i];
    assert more == less + [tags[i]];
    forall x | ComesFrom(x, less) ensures ComesFrom(x, more) {
      var k :| 0 <= k < |less| && TrimSpace(less[k]) == x;
      assert TrimSpace(more[k]) == x;
    }
    assert more[i] == tags[i];
    forall x | ComesFrom(x, more) && x != TrimSpace(tags[i]) ensures ComesFrom(x, less) {
      var k :| 0 <= k < |more| && TrimSpace(more[k]) == x;
      assert TrimSpace(less[k]) == x;
    }
  }

  method DecodeTags(s: string) returns (out: seq<string>)
    ensures out == Decode(s)
  {
    hide TrimSpace, Split;
    out := [];
    if s == "" {
      return;
    }
    var parts := Split(s);
    for i := 0 to |parts|
      invariant out == Kept(parts[..i])
    {
      assert parts[..i + 1][..i] == parts[..i];
      var p := TrimSpace(parts[i]);
      if p != "" {
        out := out + [p];
      }
    }
    assert parts[..|parts|] == parts;
  }

  predicate NoSemicolons(ss: seq<string>) { forall i :: 0 <= i < |ss| ==> ';' !in ss[i] }

  lemma {:induction false} SplitAppend(s: string, t: string)
    requires ';' !in t
    ensures Split(s + t) == Split(s)[..|Split(s)| - 1] + [Split(s)[|Split(s)| - 1] + t]
    decreases |t|
  {
    if t == "" {
      assert s + t == s;
      assert Split(s)[|Split(s)| - 1] + t == Split(s)[|Split(s)| - 1];
    } else {
      var init, c := t[..|t| - 1], t[|t| - 1];
      assert t == init + [c] && (s + t)[..|s + t| - 1] == s + init;
      SplitAppend(s, init);
      var parts, last := Split(s), Split(s)[|Split(s)| - 1];
      var p := Split(s + init);
      assert p[..|p| - 1] == parts[..|parts| - 1] && p[|p| - 1] == last + init;
      assert last + init + [c] == last + t;
    }
  }

  lemma SplitSemicolon(s: string)
    ensures Split(s + ";") == Split(s) + [""]
  {
    assert (s + ";")[..|s|] == s;
  }

  lemma SplitOne(s: string)
    requires ';' !in s
    ensures Split(s) == [s]
  {
    SplitAppend("", s);
    assert "" + s == s;
  }

  lemma {:induction false} SplitJoin(ss: seq<string>)
    requires ss != [] && NoSemicolons(ss)
    ensures Split(Join(ss)) == ss
  {
    hide Split;
    var init, last := ss[..|ss| - 1], ss[|ss| - 1];
    assert ss == init + [last];
    if |ss| == 1 {
      SplitOne(last);
    } else {
      SplitJoin(init);
      var s := Join(init);
      assert Join(ss) == s + ";" + last;
      hide Join;
      SplitSemicolon(s);
      SplitAppend(s + ";", last);
      var parts := Split(s + ";");
      assert parts == init + [""] && parts[..|parts| - 1] == init && "" + last == last;
    }
  }

  /** Splitting cuts at every semicolon and nowhere else, and joining undoes it. */
  lemma {:induction false} SplitExactly(s: string)
    ensures NoSemicolons(Split(s)) && Join(Split(s)) == s
  {
    SplitHasNoSemicolons(s);
    if s != "" {
      var init, c := s[..|s| - 1], s[|s| - 1];
      SplitExactly(init);
      var parts := Split(init);
      assert s == init + [c];
      if c == ';' {
        assert (parts + [""])[..|parts|] == parts && init + ";" + "" == s;
      } else {
        JoinLonger(parts, c);
      }
    }
  }

  lemma JoinLonger(parts: seq<string>, c: char)
    requires parts != []
    ensures Join(parts[..|parts| - 1] + [parts[|parts| - 1] + [c]]) == Join(parts) + [c]
  {
    var init, last := parts[..|parts| - 1], parts[|parts| - 1];
    var longer := init + [last + [c]];
    assert longer[..|longer| - 1] == init && longer[|longer| - 1] == last + [c];
    if |parts| > 1 {
      assert Join(init) + ";" + (last + [c]) == Join(init) + ";" + last + [c];
    }
  }

  /** What is kept of the pieces is what trimming leaves of them, where it leaves anything. */
  lemma {:induction false} KeptExactly(parts: seq<string>)
    ensures forall x :: x in Kept(parts) <==> ComesFrom(x, parts)
  {
    hide TrimSpace;
    if parts != [] {
      var n := |parts| - 1;
      KeptExactly(parts[..n]);
      OneMoreTag(parts, n);
      assert parts[..n + 1] == parts;
    }
  }

  lemma {:induction false} KeptAll(parts: seq<string>)
    requires forall i :: 0 <= i < |parts| ==> parts[i] != "" && TrimSpace(parts[i]) == parts[i]
    ensures Kept(parts) == parts
  {
    hide TrimSpace;
    if parts != [] {
      KeptAll(parts[..|parts| - 1]);
      assert parts == parts[..|parts| - 1] + [parts[|parts| - 1]];
    }
  }

  lemma {:induction false} SplitHasNoSemicolons(s: string)
    ensures NoSemicolons(Split(s))
  {
    if s != "" {
      SplitHasNoSemicolons(s[..|s| - 1]);
    }
  }

  lemma {:induction false} KeptHasNoSemicolons(parts: seq<string>)
    requires NoSemicolons(parts)
    ensures NoSemicolons(Kept(parts))
  {
    hide TrimSpace;
    if parts != [] {
      KeptHasNoSemicolons(parts[..|parts| - 1]);
      TrimSpaceSpec(parts[|parts| - 1]);
    }
  }

  lemma CanonicalTrimmed(tags: seq<string>)
    ensures forall i :: 0 <= i < |Canonical(tags)| ==>
              Canonical(tags)[i] != "" && TrimSpace(Canonical(tags)[i]) == Canonical(tags)[i]
  {
    hide TrimSpace, Canonical, Trimmed;
    CanonicalSpec(tags);
    var c := Canonical(tags);
    forall i | 0 <= i < |c| ensures c[i] != "" && TrimSpace(c[i]) == c[i] {
      assert c[i] in c;
      var k :| 0 <= k < |tags| && TrimSpace(tags[k]) == c[i];
      TrimSpaceSpec(tags[k]);
      TrimSpaceSpec(c[i]);
    }
  }

  lemma CanonicalSemicolons(tags: seq<string>)
    ensures NoSemicolons(Canonical(tags)) <==> NoSemicolons(tags)
  {
    hide TrimSpace, Canonical, StrictlySorted;
    CanonicalSpec(tags);
    var c := Canonical(tags);
    forall i | 0 <= i < |c| && NoSemicolons(tags) ensures ';' !in c[i] {
      assert c[i] in c;
      var k :| 0 <= k < |tags| && TrimSpace(tags[k]) == c[i];
      TrimSpaceSpec(tags[k]);
    }
    forall k | 0 <= k < |tags| && NoSemicolons(c) ensures ';' !in tags[k] {
      TrimSpaceSpec(tags[k]);
      var t := TrimSpace(tags[k]);
      assert t != "" ==> ComesFrom(t, tags);
      if t != "" {
        assert t in c;
        var i :| 0 <= i < |c| && c[i] == t;
      }
    }
  }

  /** Round trip: decoding what was encoded gives the trimmed, sorted, duplicate-free form of
      the tags exactly when no tag contains a semicolon. */
  lemma RoundTrip(tags: seq<string>)
    ensures Decode(Encode(tags)) == Canonical(tags) <==> NoSemicolons(tags)
  {
    hide TrimSpace, Canonical, Split, Join, Kept, NoSemicolons;
    var c := Canonical(tags);
    CanonicalSemicolons(tags);
    CanonicalTrimmed(tags);
    if NoSemicolons(c) {
      if c == [] {
        JoinOfNone();
      } else {
        SplitJoin(c);
        KeptAll(c);
        JoinNotEmpty(c);
      }
    } else {
      SplitHasNoSemicolons(Join(c));
      KeptHasNoSemicolons(Split(Join(c)));
      NoneHasNone();
    }
  }

  lemma JoinOfNone()
    ensures Join([]) == ""
  {}

  lemma NoneHasNone()
    ensures NoSemicolons([])
  {}

  lemma JoinNotEmpty(ss: seq<string>)
    requires ss != [] && ss[0] != ""
    ensures Join(ss) != ""
  {}

  // ------------------------------------------------------------------
  // Owner and profile tags
  // ------------------------------------------------------------------

  predicate IsLower(c: char) { 'a' <= c <= 'z' }
  predicate IsDigit(c: char) { '0' <= c <= '9' }
  predicate IsUpper(c: char) { 'A' <= c <= 'Z' }

  /** Lower case, as far as it can yield an ASCII letter: besides A to Z, the dotted capital I
      and the Kelvin sign. */
  function Lower(c: char): char {
    if IsUpper(c) then c - 'A' + 'a' else if c == '\U{130}' then 'i' else if c == '\U{212A}' then 'k' else c
  }

  function Fold(c: char): char {
    var l := Lower(c);
    if IsLower(l) || IsDigit(l) then l else '-'
  }

  function FoldAll(s: string): string { if s == "" then "" else FoldAll(s[..|s| - 1]) + [Fold(s[|s| - 1])] }

  function StripLeft(s: string): string { if s != "" && s[0] == '-' then StripLeft(s[1..]) else s }

  function StripRight(s: string): string { if s != "" && s[|s| - 1] == '-' then StripRight(s[..|s| - 1]) else s }

  function Sanitize(s: string): string { StripRight(StripLeft(FoldAll(s))) }

  method SanitizeName(s: string) returns (r: string)
    ensures r == Sanitize(s)
  {
    var b := "";
    for i := 0 to |s|
      invariant b == FoldAll(s[..i])
    {
      assert s[..i + 1][..i] == s[..i];
      b := b + [Fold(s[i])];
    }
    assert s[..|s|] == s;
    r := StripRight(StripLeft(b));
  }

  predicate TagChar(c: char) { IsLower(c) || IsDigit(c) || c == '-' }

  predicate TagChars(s: string) { forall i :: 0 <= i < |s| ==> TagChar(s[i]) }

  lemma {:induction false} FoldAllSpec(s: string)
    ensures |FoldAll(s)| == |s| && TagChars(FoldAll(s))
    ensures TagChars(s) ==> FoldAll(s) == s
  {
    if s != "" {
      FoldAllSpec(s[..|s| - 1]);
      assert s == s[..|s| - 1] + [s[|s| - 1]];
    }
  }

  lemma {:induction false} StripLeftSpec(s: string)
    requires TagChars(s)
    ensures TagChars(StripLeft(s)) && (s != "" && s[0] != '-' ==> StripLeft(s) == s)
  {
    if s != "" && s[0] == '-' {
      StripLeftSpec(s[1..]);
    }
  }

  lemma {:induction false} StripRightSpec(s: string)
    requires TagChars(s)
    ensures var t := StripRight(s); TagChars(t) && t <= s && (t == "" || t[|t| - 1] != '-')
    ensures s != "" && s[0] != '-' ==> StripRight(s) != ""
    ensures StripRight(s) == s <==> s == "" || s[|s| - 1] != '-'
  {
    if s != "" && s[|s| - 1] == '-' {
      StripRightSpec(s[..|s| - 1]);
    }
  }

  lemma SanitizeChars(s: string)
    ensures TagChars(Sanitize(s))
  {
    FoldAllSpec(s);
    StripLeftSpec(FoldAll(s));
    StripRightSpec(StripLeft(FoldAll(s)));
  }

  /** Folding, letter by letter. */
  lemma FoldExactly(c: char)
    ensures 'a' <= c <= 'z' || '0' <= c <= '9' ==> Fold(c) == c
    ensures 'A' <= c <= 'Z' ==> Fold(c) as int == c as int - 'A' as int + 'a' as int
    ensures Fold('\U{130}') == 'i' && Fold('\U{212A}') == 'k'
    ensures !('a' <= c <= 'z' || '0' <= c <= '9' || 'A' <= c <= 'Z' || c == '\U{130}' || c == '\U{212A}') ==>
      Fold(c) == '-'
  {}

  lemma {:induction false} FoldAllAt(s: string)
    ensures |FoldAll(s)| == |s| && forall i :: 0 <= i < |s| ==> FoldAll(s)[i] == Fold(s[i])
  {
    if s != "" {
      FoldAllAt(s[..|s| - 1]);
    }
  }

  lemma {:induction false} StripLeftAt(s: string) returns (i: nat)
    ensures i <= |s| && StripLeft(s) == s[i..] && (forall k :: 0 <= k < i ==> s[k] == '-') && (i < |s| ==> s[i] != '-')
  {
    if s != "" && s[0] == '-' {
      var rest := StripLeftAt(s[1..]);
      i := rest + 1;
      assert forall k :: 0 < k < i ==> s[k] == s[1..][k - 1];
    } else {
      i := 0;
    }
  }

  lemma {:induction false} StripRightAt(s: string) returns (j: nat)
    ensures j <= |s| && StripRight(s) == s[..j] && (forall k :: j <= k < |s| ==> s[k] == '-') &&
      (j > 0 ==> s[j - 1] != '-')
  {
    if s != "" && s[|s| - 1] == '-' {
      j := StripRightAt(s[..|s| - 1]);
      assert s[..|s| - 1][..j] == s[..j];
    } else {
      j := |s|;
    }
  }

  /** A name is folded letter by letter, and loses the hyphens at both ends and nothing else. */
  lemma SanitizeExactly(s: string) returns (i: nat, j: nat)
    ensures i <= j <= |s| && |Sanitize(s)| == j - i
    ensures forall k :: i <= k < j ==> Sanitize(s)[k - i] == Fold(s[k])
    ensures forall k :: 0 <= k < i || j <= k < |s| ==> Fold(s[k]) == '-'
    ensures i < j ==> Fold(s[i]) != '-' && Fold(s[j - 1]) != '-'
  {
    hide Fold;
    FoldAllAt(s);
    var folded := FoldAll(s);
    i := StripLeftAt(folded);
    var n := StripRightAt(folded[i..]);
    j := i + n;
    forall k | j <= k < |s| ensures Fold(s[k]) == '-' {
      assert folded[k] == folded[i..][k - i];
    }
  }

  /** `^[a-z0-9][a-z0-9-]{0,62}$` */
  predicate ValidProfileName(s: string) {
    1 <= |s| <= 63 && s[0] != '-' && TagChars(s)
  }

  /** A valid profile name survives exactly when it does not end in a hyphen. */
  lemma SanitizeProfile(s: string)
    requires ValidProfileName(s)
    ensures Sanitize(s) != "" && (Sanitize(s) == s <==> s[|s| - 1] != '-')
  {
    hide FoldAll, StripLeft, StripRight;
    FoldAllSpec(s);
    StripLeftSpec(s);
    StripRightSpec(s);
  }

  predicate NameChar(c: char) { IsLower(c) || IsUpper(c) || IsDigit(c) || c == '_' || c == '.' || c == '-' }

  /** `^[a-zA-Z0-9][a-zA-Z0-9_.-]{0,62}$` */
  predicate ValidScaleSetName(s: string) {
    1 <= |s| <= 63 && (IsLower(s[0]) || IsUpper(s[0]) || IsDigit(s[0])) && forall i :: 0 <= i < |s| ==> NameChar(s[i])
  }

  /** Both patterns, character by character. */
  lemma NamesExactly(s: string)
    ensures ValidProfileName(s) <==>
      && 0 < |s| < 64 && s[0] != '-'
      && forall i :: 0 <= i < |s| ==> 'a' <= s[i] <= 'z' || '0' <= s[i] <= '9' || s[i] == '-'
    ensures ValidScaleSetName(s) <==>
      && 0 < |s| < 64 && s[0] != '_' && s[0] != '.' && s[0] != '-'
      && forall i :: 0 <= i < |s| ==>
           'a' <= s[i] <= 'z' || 'A' <= s[i] <= 'Z' || '0' <= s[i] <= '9' || s[i] == '_' || s[i] == '.' || s[i] == '-'
  {}

  function OwnerTag(name: string): Option<string> {
    if ValidScaleSetName(name) then Some(OWNER_PREFIX + Sanitize(name)) else None
  }

  function ProfileTag(profile: string): string {
    PROFILE_PREFIX + Sanitize(if profile == "" then DEFAULT_PROFILE else profile)
  }

  function TemplateTag(class_: string): string {
    TEMPLATE_PREFIX + Sanitize(if class_ == "" then TEMPLATE_STABLE else class_)
  }

  function Initial(name: string, profile: string, class_: string): Option<seq<string>> {
    var owner := OwnerTag(name);
    if owner.None? then None
    else Some([MARKER, owner.value, ProfileTag(profile), TemplateTag(if class_ == "" then TEMPLATE_STABLE else class_)])
  }

  /** What follows the prefix in the first tag that has it, unless that is empty. */
  function FirstWith(prefix: string, tags: seq<string>, default: string): string {
    if tags == [] then default
    else if prefix <= tags[0] then
      if tags[0] == prefix then default else tags[0][|prefix|..]
    else FirstWith(prefix, tags[1..], default)
  }

  function ProfileOf(wire: string): string { FirstWith(PROFILE_PREFIX, Decode(wire), DEFAULT_PROFILE) }

  predicate IsOwnedBy(wire: string, name: string) {
    OwnerTag(name).Some? && MARKER in Decode(wire) && OwnerTag(name).value in Decode(wire)
  }

  /** A VM is owned by its tags alone: the common marker and the owner's own tag. */
  lemma OwnedExactly(wire: string, name: string)
    ensures IsOwnedBy(wire, name) <==>
      && ValidScaleSetName(name) && "gh-scaleset" in Decode(wire)
      && ("gh-scaleset-owner-" + Sanitize(name)) in Decode(wire)
  {
    hide Decode, Sanitize, ValidScaleSetName;
  }

  /** The first tag with the prefix decides, unless nothing follows the prefix. */
  lemma {:induction false} FirstWithAt(prefix: string, tags: seq<string>, default: string, i: nat)
    requires i < |tags| && prefix <= tags[i] && forall j :: 0 <= j < i ==> !(prefix <= tags[j])
    ensures FirstWith(prefix, tags, default) == if tags[i] == prefix then default else tags[i][|prefix|..]
    decreases |tags|
  {
    if i > 0 {
      FirstWithAt(prefix, tags[1..], default, i - 1);
    }
  }

  /** Without one, the default stands. */
  lemma {:induction false} FirstWithNone(prefix: string, tags: seq<string>, default: string)
    requires forall j :: 0 <= j < |tags| ==> !(prefix <= tags[j])
    ensures FirstWith(prefix, tags, default) == default
    decreases |tags|
  {
    if tags != [] {
      FirstWithNone(prefix, tags[1..], default);
    }
  }

  lemma {:induction false} FirstWithOnly(prefix: string, tags: seq<string>, default: string, t: string)
    requires t in tags && prefix <= t
    requires forall i :: 0 <= i < |tags| && prefix <= tags[i] ==> tags[i] == t
    ensures FirstWith(prefix, tags, default) == if t == prefix then default else t[|prefix|..]
    decreases |tags|
  {
    if prefix <= tags[0] {
      assert tags[0] == t;
    } else {
      assert tags == [tags[0]] + tags[1..] && t in tags[1..];
      FirstWithOnly(prefix, tags[1..], default, t);
    }
  }

  lemma WellBehaved(s: string)
    requires s != "" && TagChars(s)
    ensures TrimSpace(s) == s && ';' !in s
  {
    hide TrimSpace;
    TrimSpaceSpec(s);
    assert TagChar(s[0]) && TagChar(s[|s| - 1]);
  }

  lemma PrefixedWellBehaved(prefix: string, s: string)
    requires prefix != "" && TagChars(prefix)
    ensures TrimSpace(prefix + Sanitize(s)) == prefix + Sanitize(s) && ';' !in prefix + Sanitize(s)
  {
    hide TrimSpace, Sanitize;
    SanitizeChars(s);
    assert TagChars(prefix + Sanitize(s));
    WellBehaved(prefix + Sanitize(s));
  }

  lemma PlainLiterals()
    ensures TagChars(MARKER) && TagChars(OWNER_PREFIX) && TagChars(PROFILE_PREFIX) && TagChars(TEMPLATE_PREFIX)
  {}

  lemma InitialWellBehaved(name: string, profile: string, class_: string)
    requires ValidScaleSetName(name)
    ensures
      var tags := Initial(name, profile, class_).value;
      forall i :: 0 <= i < |tags| ==> TrimSpace(tags[i]) == tags[i] && tags[i] != "" && ';' !in tags[i]
  {
    hide TrimSpace, Sanitize, TagChars, ValidScaleSetName;
    PlainLiterals();
    PrefixedWellBehaved(OWNER_PREFIX, name);
    PrefixedWellBehaved(PROFILE_PREFIX, if profile == "" then DEFAULT_PROFILE else profile);
    PrefixedWellBehaved(TEMPLATE_PREFIX, if class_ == "" then TEMPLATE_STABLE else class_);
    WellBehaved(MARKER);
  }

  /** Tags that trimming leaves alone survive the wire, and nothing else appears. */
  lemma TrimmedDecoded(tags: seq<string>)
    requires forall i :: 0 <= i < |tags| ==> TrimSpace(tags[i]) == tags[i] && tags[i] != "" && ';' !in tags[i]
    ensures forall x :: x in Decode(Encode(tags)) <==> x in tags
  {
    hide TrimSpace, Canonical, Encode, Decode;
    RoundTrip(tags);
    CanonicalSpec(tags);
    forall x | x in tags ensures ComesFrom(x, tags) {
      var i :| 0 <= i < |tags| && tags[i] == x;
      assert TrimSpace(tags[i]) == x;
    }
  }

  /** The initial tags survive the wire: decoding yields these four and nothing else. */
  lemma InitialDecoded(name: string, profile: string, class_: string)
    requires ValidScaleSetName(name)
    ensures forall x :: x in Decode(Encode(Initial(name, profile, class_).value)) <==>
      x in Initial(name, profile, class_).value
  {
    hide TrimSpace, Sanitize, Encode, Decode;
    InitialWellBehaved(name, profile, class_);
    TrimmedDecoded(Initial(name, profile, class_).value);
  }

  lemma Prefixes(s: string)
    ensures !(PROFILE_PREFIX <= MARKER) && !(PROFILE_PREFIX <= OWNER_PREFIX + s) &&
      !(PROFILE_PREFIX <= TEMPLATE_PREFIX + s)
    ensures !(OWNER_PREFIX <= MARKER) && !(OWNER_PREFIX <= PROFILE_PREFIX + s) && !(OWNER_PREFIX <= TEMPLATE_PREFIX + s)
  {
    assert PROFILE_PREFIX[12] == 'p' && (OWNER_PREFIX + s)[12] == 'o' && (TEMPLATE_PREFIX + s)[12] == 't';
    assert OWNER_PREFIX[12] == 'o' && (PROFILE_PREFIX + s)[12] == 'p';
  }

  /** The profile read back from a new VM's tags is the sanitized profile. */
  lemma ProfileReadBack(name: string, profile: string, class_: string)
    requires ValidScaleSetName(name)
    ensures
      var s := Sanitize(if profile == "" then DEFAULT_PROFILE else profile);
      ProfileOf(Encode(Initial(name, profile, class_).value)) == if s == "" then DEFAULT_PROFILE else s
  {
    hide Sanitize, Encode, Decode;
    InitialDecoded(name, profile, class_);
    var tags, p := Initial(name, profile, class_).value, ProfileTag(profile);
    var s := Sanitize(if profile == "" then DEFAULT_PROFILE else profile);
    Prefixes(Sanitize(name));
    Prefixes(Sanitize(if class_ == "" then TEMPLATE_STABLE else class_));
    assert tags[2] == p && PROFILE_PREFIX <= p && p[|PROFILE_PREFIX|..] == s;
    var decoded := Decode(Encode(tags));
    forall i | 0 <= i < |decoded| && PROFILE_PREFIX <= decoded[i] ensures decoded[i] == p {
      assert decoded[i] in decoded && decoded[i] in tags;
    }
    assert p in tags && p in decoded;
    FirstWithOnly(PROFILE_PREFIX, decoded, DEFAULT_PROFILE, p);
  }

  /** So a configured profile gets its VMs back after a restart exactly when its name does not
      end in a hyphen, although configuration accepts such names. */
  lemma ProfileSurvivesRestart(name: string, profile: string, class_: string)
    requires ValidScaleSetName(name) && ValidProfileName(profile)
    ensures ProfileOf(Encode(Initial(name, profile, class_).value)) == profile <==> profile[|profile| - 1] != '-'
  {
    hide Encode, ProfileOf, Sanitize;
    ProfileReadBack(name, profile, class_);
    SanitizeProfile(profile);
  }

  // ------------------------------------------------------------------
  // Ownership across scale sets
  // ------------------------------------------------------------------

  /** Every name is valid and no two names share an owner tag. */
  ghost predicate OwnersDistinct(names: seq<string>) {
    && (forall i :: 0 <= i < |names| ==> ValidScaleSetName(names[i]))
    && (forall i, j :: 0 <= i < j < |names| ==> OwnerTag(names[i]) != OwnerTag(names[j]))
  }

  /** The name part of config validation. */
  method ValidateScalesetNames(names: seq<string>) returns (ok: bool)
    ensures ok <==> OwnersDistinct(names)
  {
    hide ValidScaleSetName, Sanitize;
    var seenName: set<string> := {};
    var seenOwnerTag: set<string> := {};
    for i := 0 to |names|
      invariant forall k :: 0 <= k < i ==> ValidScaleSetName(names[k]) && OwnerTag(names[k]).value in seenOwnerTag
      invariant forall t :: t in seenOwnerTag ==> exists k :: 0 <= k < i && OwnerTag(names[k]) == Some(t)
      invariant forall n :: n in seenName <==> n in names[..i]
      invariant forall a, b :: 0 <= a < b < i ==> OwnerTag(names[a]) != OwnerTag(names[b])
    {
      assert names[..i + 1] == names[..i] + [names[i]];
      if names[i] in seenName {
        var k :| 0 <= k < i && names[..i][k] == names[i];
        assert OwnerTag(names[k]) == OwnerTag(names[i]);
        return false;
      }
      seenName := seenName + {names[i]};
      var tag := OwnerTag(names[i]);
      if tag.None? {
        return false;
      }
      if tag.value in seenOwnerTag {
        return false;
      }
      seenOwnerTag := seenOwnerTag + {tag.value};
    }
    ok := true;
  }

  /** Under a validated configuration a VM carries the tags of exactly one scale set. */
  lemma OwnedByExactlyOne(names: seq<string>, i: nat, j: nat, profile: string, class_: string)
    requires OwnersDistinct(names) && i < |names| && j < |names|
    ensures IsOwnedBy(Encode(Initial(names[i], profile, class_).value), names[j]) <==> i == j
  {
    hide Sanitize, Encode, Decode, ValidScaleSetName;
    InitialDecoded(names[i], profile, class_);
    var tags := Initial(names[i], profile, class_).value;
    Prefixes(Sanitize(if profile == "" then DEFAULT_PROFILE else profile));
    Prefixes(Sanitize(if class_ == "" then TEMPLATE_STABLE else class_));
    assert tags[0] == MARKER && tags[1] == OwnerTag(names[i]).value;
    assert OWNER_PREFIX <= OwnerTag(names[j]).value;
    assert OwnerTag(names[j]).value in tags ==> OwnerTag(names[j]).value == tags[1];
  }
}

/** Python string and POSIX path operations used by the modelled code, with the
    exact semantics of `str.rsplit`, `str.split`, `str.replace`, `str.strip`,
    `str.lower`, `os.path.join`, `os.path.basename` and `os.path.splitext`. */
module Strings {
  import opened Common

  predicate StartsWith(s: string, prefix: string) {
    |prefix| <= |s| && s[..|prefix|] == prefix
  }

  predicate EndsWith(s: string, suffix: string) {
    |suffix| <= |s| && s[|s| - |suffix|..] == suffix
  }

  /** `pat` occurs in `s` at position `i`. */
  predicate OccursAt(s: string, pat: string, i: nat) {
    i + |pat| <= |s| && s[i..i + |pat|] == pat
  }

  /** Python's `pat in s` for strings. */
  predicate Contains(s: string, pat: string) {
    exists i :: 0 <= i <= |s| && OccursAt(s, pat, i)
  }

  /** A one-character pattern that does not occur is a character that does not. */
  lemma CharNotContained(s: string, x: char)
    requires !Contains(s, [x])
    ensures x !in s
  {
    forall i | 0 <= i < |s| ensures s[i] != x {
      assert !OccursAt(s, [x], i);
      assert s[i..i + 1] == [s[i]];
    }
  }

  /** An occurrence inside a slice is an occurrence in the whole string. */
  lemma InfixKeepsOccurrence(s: string, a: nat, b: nat, pat: string, i: nat)
    requires a <= b <= |s|
    requires OccursAt(s[a..b], pat, i)
    ensures OccursAt(s, pat, a + i)
  {
    var u, v := s[a..b][i..i + |pat|], s[a + i..a + i + |pat|];
    forall k | 0 <= k < |pat| ensures u[k] == v[k] {
    }
    assert u == v;
  }

  lemma InfixAvoids(s: string, a: nat, b: nat, pat: string)
    requires a <= b <= |s|
    requires !Contains(s, pat)
    ensures !Contains(s[a..b], pat)
  {
    if Contains(s[a..b], pat) {
      var i :| 0 <= i <= |s[a..b]| && OccursAt(s[a..b], pat, i);
      InfixKeepsOccurrence(s, a, b, pat, i);
    }
  }

  /** Position of the last `c` in `s`. */
  function LastIndexOf(s: string, c: char): (r: Option<nat>)
    ensures r.Some? ==> r.value < |s| && s[r.value] == c
                        && forall j :: r.value < j < |s| ==> s[j] != c
    ensures r.None? ==> c !in s
  {
    if |s| == 0 then None
    else if s[|s| - 1] == c then Some(|s| - 1)
    else LastIndexOf(s[..|s| - 1], c)
  }

  /** `s.rsplit(c, 1)` unpacked into two names: None where Python's unpacking
      `[a, b] = s.rsplit(c, 1)` raises ValueError (no `c` in `s`). */
  function RSplitOnce(s: string, c: char): (r: Option<(string, string)>)
    ensures r.None? <==> c !in s
    ensures r.Some? ==> c !in r.value.1
  {
    match LastIndexOf(s, c)
    case None => None
    case Some(k) => Some((s[..k], s[k + 1..]))
  }

  /** Splitting at the last separator loses nothing: both halves and the
      separator put back give the original string. */
  lemma RSplitOnceRejoins(s: string, c: char)
    requires c in s
    ensures RSplitOnce(s, c).Some?
    ensures RSplitOnce(s, c).value.0 + [c] + RSplitOnce(s, c).value.1 == s
  {
    var k := LastIndexOf(s, c).value;
    assert s == s[..k] + [c] + s[k + 1..];
  }

  /** `s.split('/')[-1]`, the same as `os.path.basename` on POSIX paths. */
  function Basename(s: string): (r: string)
    ensures '/' !in r
    ensures EndsWith(s, r)
  {
    match LastIndexOf(s, '/')
    case None => s
    case Some(k) => s[k + 1..]
  }

  /** The base name of each path, in order: `[fn.split('/')[-1] for fn in paths]`
      (see `SplitLastIsBasename`). */
  function Basenames(paths: seq<string>): (names: seq<string>)
    ensures |names| == |paths|
    ensures forall i :: 0 <= i < |paths| ==> names[i] == Basename(paths[i])
  {
    seq(|paths|, i requires 0 <= i < |paths| => Basename(paths[i]))
  }

  /** `os.path.join(a, b)` on POSIX. */
  function PathJoin(a: string, b: string): (r: string)
    ensures EndsWith(r, b)
    ensures StartsWith(b, "/") ==> r == b
    ensures !StartsWith(b, "/") ==> StartsWith(r, a)
  {
    if StartsWith(b, "/") then b
    else if a == "" || EndsWith(a, "/") then a + b
    else a + "/" + b
  }

  /** Joining a directory with a plain file name and taking the base name gives
      the file name back. */
  lemma {:induction false} BasenameOfJoin(dir: string, name: string)
    requires '/' !in name
    ensures Basename(PathJoin(dir, name)) == name
  {
    var p := PathJoin(dir, name);
    if name != "" {
      assert !StartsWith(name, "/") by { assert name[0] != '/'; }
    }
    if dir == "" {
      assert p == name;
      LastIndexAbsent(name, '/');
    } else {
      var head := if EndsWith(dir, "/") then dir else dir + "/";
      assert p == head + name;
      assert head[|head| - 1] == '/';
      LastIndexAfterSeparator(head, name, '/');
      assert p[|head|..] == name;
    }
  }

  lemma LastIndexAbsent(s: string, c: char)
    requires c !in s
    ensures LastIndexOf(s, c) == None
  {
  }

  lemma {:induction false} LastIndexAfterSeparator(head: string, tail: string, c: char)
    requires |head| > 0 && head[|head| - 1] == c
    requires c !in tail
    ensures LastIndexOf(head + tail, c) == Some(|head| - 1)
    decreases |tail|
  {
    var s := head + tail;
    if |tail| == 0 {
      assert s == head;
    } else {
      assert s[|s| - 1] == tail[|tail| - 1];
      assert s[..|s| - 1] == head + tail[..|tail| - 1];
      LastIndexAfterSeparator(head, tail[..|tail| - 1], c);
    }
  }

  /** `os.path.splitext(name)[1]` for a name without '/': the text from the last
      '.', unless every character before that dot is itself a dot. */
  function Extension(name: string): (ext: string)
    ensures ext == "" || (ext[0] == '.' && EndsWith(name, ext))
  {
    match LastIndexOf(name, '.')
    case None => ""
    case Some(k) =>
      if exists j :: 0 <= j < k && name[j] != '.' then name[k..] else ""
  }

  /** With no '.' in the name there is no extension. With its last '.' at `k`,
      the extension is the text from `k` on exactly when some character before
      `k` is not a '.', and "" otherwise (a leading run of dots is part of the
      stem). */
  lemma {:induction false} ExtensionMeaning(name: string, k: nat)
    requires k < |name| && name[k] == '.' && '.' !in name[k + 1..]
    ensures (exists j :: 0 <= j < k && name[j] != '.') ==> Extension(name) == name[k..]
    ensures (forall j :: 0 <= j < k ==> name[j] == '.') ==> Extension(name) == ""
  {
    assert forall j :: k < j < |name| ==> name[j] == name[k + 1..][j - k - 1];
    assert LastIndexOf(name, '.') == Some(k);
  }

  lemma {:induction false} ExtensionNone(name: string)
    requires '.' !in name
    ensures Extension(name) == ""
  {
    LastIndexAbsent(name, '.');
  }

  /** `s.split(pat)[0]` for a non-empty separator: the text before the first
      occurrence of `pat`, or all of `s`. */
  function BeforeFirst(s: string, pat: string): (r: string)
    requires |pat| > 0
    ensures StartsWith(s, r)
    ensures !Contains(r, pat)
    decreases |s|
  {
    if |s| < |pat| then
      assert !Contains(s, pat);
      s
    else if s[..|pat|] == pat then
      assert !OccursAt("", pat, 0);
      ""
    else
      var rest := BeforeFirst(s[1..], pat);
      var r := [s[0]] + rest;
      assert r == s[..|r|] by {
        assert rest == s[1..][..|rest|];
        assert s[..|r|] == [s[0]] + s[1..][..|rest|];
      }
      assert !Contains(r, pat) by {
        forall i | 0 <= i <= |r| ensures !OccursAt(r, pat, i) {
          if i == 0 {
            if |pat| <= |r| { assert r[..|pat|] == s[..|r|][..|pat|] == s[..|pat|]; }
          } else if i + |pat| <= |r| {
            assert r[i..i + |pat|] == rest[i - 1..i - 1 + |pat|];
            assert !OccursAt(rest, pat, i - 1);
          }
        }
      }
      r
  }

  /** `BeforeFirst` stops at the first occurrence of the separator. */
  lemma {:induction false} BeforeFirstAt(s: string, pat: string, k: nat)
    requires |pat| > 0 && k + |pat| <= |s| && s[k..k + |pat|] == pat
    requires forall i :: 0 <= i < k ==> !OccursAt(s, pat, i)
    ensures BeforeFirst(s, pat) == s[..k]
    decreases k
  {
    if k > 0 {
      assert s[0..|pat|] == s[..|pat|];
      var rest := s[1..];
      assert !OccursAt(s, pat, 0);
      forall i | 0 <= i < k - 1 ensures !OccursAt(rest, pat, i) {
        assert !OccursAt(s, pat, i + 1);
        assert rest[i..i + |pat|] == s[i + 1..i + 1 + |pat|];
      }
      assert rest[k - 1..k - 1 + |pat|] == pat;
      BeforeFirstAt(rest, pat, k - 1);
      assert s[..k] == [s[0]] + rest[..k - 1];
    }
  }

  /** Without `pat` in `s`, the first field of `s.split(pat)` is all of `s`. */
  lemma {:induction false} BeforeFirstAbsent(s: string, pat: string)
    requires |pat| > 0 && !Contains(s, pat)
    ensures BeforeFirst(s, pat) == s
    decreases |s|
  {
    if |s| >= |pat| {
      assert s[..|pat|] != pat by { assert !OccursAt(s, pat, 0); }
      var rest := s[1..];
      InfixAvoids(s, 1, |s|, pat);
      assert s[1..|s|] == rest;
      BeforeFirstAbsent(rest, pat);
      assert BeforeFirst(s, pat) == [s[0]] + BeforeFirst(rest, pat);
      assert s == [s[0]] + rest;
    }
  }

  /** With `pat` in `s`, the first field ends where an occurrence of `pat`
      begins (the first one, as the field itself holds none). */
  lemma BeforeFirstFound(s: string, pat: string)
    requires |pat| > 0 && Contains(s, pat)
    ensures OccursAt(s, pat, |BeforeFirst(s, pat)|)
  {
    var i :| 0 <= i <= |s| && OccursAt(s, pat, i);
    var k := FirstOccurrence(s, pat, i);
    BeforeFirstAt(s, pat, k);
  }

  /** Some occurrence of `pat` comes first. */
  lemma {:induction false} FirstOccurrence(s: string, pat: string, i: nat) returns (k: nat)
    requires OccursAt(s, pat, i)
    ensures k <= i && OccursAt(s, pat, k)
    ensures forall j :: 0 <= j < k ==> !OccursAt(s, pat, j)
    decreases i
  {
    k := i;
    if exists j :: 0 <= j < i && OccursAt(s, pat, j) {
      var j :| 0 <= j < i && OccursAt(s, pat, j);
      k := FirstOccurrence(s, pat, j);
    }
  }

  /** `s.split(c)` for a one-character separator. */
  function Split(s: string, c: char): (fields: seq<string>)
    ensures |fields| >= 1
    ensures forall f :: f in fields ==> c !in f
    decreases |s|
  {
    match FirstIndexOf(s, c)
    case None => [s]
    case Some(k) => [s[..k]] + Split(s[k + 1..], c)
  }

  function FirstIndexOf(s: string, c: char): (r: Option<nat>)
    ensures r.Some? ==> r.value < |s| && s[r.value] == c && c !in s[..r.value]
    ensures r.None? ==> c !in s
  {
    if |s| == 0 then None
    else if s[0] == c then Some(0)
    else match FirstIndexOf(s[1..], c)
      case None => None
      case Some(k) => Some(k + 1)
  }

  /** The fields of a split hold only characters of the original string. */
  lemma {:induction false} SplitFieldsAvoid(s: string, c: char, x: char)
    requires x !in s
    ensures forall f :: f in Split(s, c) ==> x !in f
    decreases |s|
  {
    match FirstIndexOf(s, c)
    case None =>
    case Some(k) =>
      assert forall i :: k + 1 <= i < |s| ==> s[k + 1..][i - k - 1] == s[i];
      SplitFieldsAvoid(s[k + 1..], c, x);
  }

  /** The last field of `s.split('/')` is the base name. */
  lemma SplitLastIsBasename(s: string)
    ensures Split(s, '/')[|Split(s, '/')| - 1] == Basename(s)
  {
    SplitLastIsAfterLast(s, '/');
  }

  /** What follows the last `c` in `s`, all of `s` when there is none. */
  function AfterLast(s: string, c: char): string {
    match LastIndexOf(s, c)
    case None => s
    case Some(k) => s[k + 1..]
  }

  /** The last field of `s.split(c)` is what follows the last `c`. */
  lemma {:induction false} SplitLastIsAfterLast(s: string, c: char)
    ensures Split(s, c)[|Split(s, c)| - 1] == AfterLast(s, c)
    decreases |s|
  {
    match FirstIndexOf(s, c)
    case None =>
      LastIndexAbsent(s, c);
      assert Split(s, c) == [s];
    case Some(k) =>
      SplitLastStep(s, c, k);
      AfterLastSkips(s, c, k);
      SplitLastIsAfterLast(s[k + 1..], c);
  }

  /** Past the first separator, the last field does not change. */
  lemma SplitLastStep(s: string, c: char, k: nat)
    requires FirstIndexOf(s, c) == Some(k)
    ensures Split(s, c)[|Split(s, c)| - 1] == Split(s[k + 1..], c)[|Split(s[k + 1..], c)| - 1]
  {
    var fields, all := Split(s[k + 1..], c), Split(s, c);
    assert all == [s[..k]] + fields;
    assert all[1..] == fields;
    assert all[|all| - 1] == all[1..][|all| - 2];
  }

  /** Dropping everything up to some `c` keeps what follows the last one. */
  lemma {:induction false} AfterLastSkips(s: string, c: char, k: nat)
    requires k < |s| && s[k] == c
    ensures AfterLast(s, c) == AfterLast(s[k + 1..], c)
  {
    var head, tail := s[..k + 1], s[k + 1..];
    assert head + tail == s;
    if c in tail {
      LastIndexShift(head, tail, c);
      DropHead(head, tail, LastIndexOf(tail, c).value + 1);
    } else {
      LastIndexAfterSeparator(head, tail, c);
      LastIndexAbsent(tail, c);
      DropHead(head, tail, 0);
    }
  }

  lemma DropHead(head: string, tail: string, m: nat)
    requires m <= |tail|
    ensures (head + tail)[|head| + m..] == tail[m..]
  {
  }

  lemma {:induction false} LastIndexShift(head: string, tail: string, c: char)
    requires c in tail
    ensures LastIndexOf(tail, c).Some?
    ensures LastIndexOf(head + tail, c) == Some(|head| + LastIndexOf(tail, c).value)
    decreases |tail|
  {
    var s := head + tail;
    assert s[|s| - 1] == tail[|tail| - 1];
    if tail[|tail| - 1] != c {
      assert s[..|s| - 1] == head + tail[..|tail| - 1];
      assert c in tail[..|tail| - 1] by {
        var i :| 0 <= i < |tail| && tail[i] == c;
        assert tail[..|tail| - 1][i] == c;
      }
      LastIndexShift(head, tail[..|tail| - 1], c);
    }
  }

  /** `sep.join(fields)`. */
  function Join(fields: seq<string>, sep: string): string {
    if |fields| == 0 then ""
    else if |fields| == 1 then fields[0]
    else fields[0] + sep + Join(fields[1..], sep)
  }

  /** Splitting and joining with the same character is the identity. */
  lemma {:induction false} JoinSplit(s: string, c: char)
    ensures Join(Split(s, c), [c]) == s
    decreases |s|
  {
    match FirstIndexOf(s, c)
    case None =>
    case Some(k) =>
      var rest := s[k + 1..];
      var fields := Split(s, c);
      assert fields == [s[..k]] + Split(rest, c);
      assert fields[1..] == Split(rest, c);
      JoinSplit(rest, c);
      assert Join(fields, [c]) == s[..k] + [c] + rest;
      assert s == s[..k] + [c] + rest;
  }

  /** Every character of a join comes from a field or from the separator. */
  lemma {:induction false} JoinChars(fields: seq<string>, sep: string, x: char)
    requires x !in sep
    requires forall f :: f in fields ==> x !in f
    ensures x !in Join(fields, sep)
    decreases |fields|
  {
    if |fields| > 1 {
      JoinChars(fields[1..], sep, x);
      assert fields[0] in fields;
    }
  }

  /** `s.replace(pat, '')`: every non-overlapping occurrence of `pat`, scanning
      from the left, is removed; an empty `pat` leaves `s` unchanged. */
  function RemoveAll(s: string, pat: string): (r: string)
    ensures |r| <= |s|
    ensures |pat| == 0 ==> r == s
    decreases |s|
  {
    if |pat| == 0 || |s| == 0 then s
    else if StartsWith(s, pat) then RemoveAll(s[|pat|..], pat)
    else [s[0]] + RemoveAll(s[1..], pat)
  }

  /** The result of removing keeps the relative order of the surviving
      characters; in particular a character absent from `s` stays absent. */
  lemma {:induction false} RemoveAllChars(s: string, pat: string, x: char)
    requires x !in s
    ensures x !in RemoveAll(s, pat)
    decreases |s|
  {
    if |pat| > 0 && |s| > 0 {
      if StartsWith(s, pat) {
        RemoveAllChars(s[|pat|..], pat, x);
      } else {
        RemoveAllChars(s[1..], pat, x);
      }
    }
  }

  lemma {:induction false} RemoveAllAbsent(s: string, pat: string)
    requires |pat| > 0
    requires !Contains(s, pat)
    ensures RemoveAll(s, pat) == s
    decreases |s|
  {
    if |s| > 0 {
      assert !StartsWith(s, pat) by {
        if StartsWith(s, pat) { assert OccursAt(s, pat, 0); }
      }
      InfixAvoids(s, 1, |s|, pat);
      assert s[1..|s|] == s[1..];
      RemoveAllAbsent(s[1..], pat);
    }
  }

  /** Characters `str.isspace` accepts. */
  predicate IsSpace(c: char) {
    c == ' ' || '\t' <= c <= '\r' || '\U{1c}' <= c <= '\U{1f}' || c == '\U{85}' || c == '\U{a0}'
    || c == '\U{1680}' || '\U{2000}' <= c <= '\U{200a}' || c == '\U{2028}' || c == '\U{2029}'
    || c == '\U{202f}' || c == '\U{205f}' || c == '\U{3000}'
  }

  /** `s.lstrip()`: only leading white space is removed. */
  function StripLeft(s: string): (r: string)
    ensures |r| <= |s| && r == s[|s| - |r|..]
    ensures |r| > 0 ==> !IsSpace(r[0])
    decreases |s|
  {
    if |s| > 0 && IsSpace(s[0]) then StripLeft(s[1..]) else s
  }

  /** `s.rstrip()`: only trailing white space is removed. */
  function StripRight(s: string): (r: string)
    ensures |r| <= |s| && r == s[..|r|]
    ensures |r| > 0 ==> !IsSpace(r[|r| - 1])
    decreases |s|
  {
    if |s| > 0 && IsSpace(s[|s| - 1]) then StripRight(s[..|s| - 1]) else s
  }

  /** `lstrip` removes only white space. */
  lemma {:induction false} StripLeftRemovesSpace(s: string)
    ensures forall i :: 0 <= i < |s| - |StripLeft(s)| ==> IsSpace(s[i])
    decreases |s|
  {
    if |s| > 0 && IsSpace(s[0]) {
      StripLeftRemovesSpace(s[1..]);
      assert forall i :: 1 <= i < |s| ==> s[i] == s[1..][i - 1];
    }
  }

  /** `rstrip` removes only white space. */
  lemma {:induction false} StripRightRemovesSpace(s: string)
    ensures forall i :: |StripRight(s)| <= i < |s| ==> IsSpace(s[i])
    decreases |s|
  {
    if |s| > 0 && IsSpace(s[|s| - 1]) {
      StripRightRemovesSpace(s[..|s| - 1]);
      assert forall i :: 0 <= i < |s| - 1 ==> s[i] == s[..|s| - 1][i];
    }
  }

  /** `s.strip()`: neither starts nor ends with white space. */
  function Strip(s: string): (r: string)
    ensures |r| > 0 ==> !IsSpace(r[0]) && !IsSpace(r[|r| - 1])
  {
    StripRight(StripLeft(s))
  }

  /** `strip` gives "" only for all-white-space input, and leaves a string
      that neither starts nor ends with white space unchanged. */
  lemma {:induction false} StripEmptyOrUnchanged(s: string)
    ensures |Strip(s)| == 0 ==> forall i :: 0 <= i < |s| ==> IsSpace(s[i])
    ensures |s| > 0 && !IsSpace(s[0]) && !IsSpace(s[|s| - 1]) ==> Strip(s) == s
  {
    StripLeftRemovesSpace(s);
    StripRightRemovesSpace(StripLeft(s));
  }

  /** The number of leading white-space characters `strip` removes. */
  function StripStart(s: string): (a: nat)
    ensures a <= |s|
  {
    |s| - |StripLeft(s)|
  }

  /** What `strip` keeps is the slice of the input from `StripStart`. */
  lemma {:induction false} StripIsSlice(s: string)
    ensures StripStart(s) + |Strip(s)| <= |s|
    ensures Strip(s) == s[StripStart(s)..StripStart(s) + |Strip(s)|]
  {
    var left, a, r := StripLeft(s), StripStart(s), Strip(s);
    assert r == StripRight(left) == left[..|r|];
    assert left == s[a..];
    PrefixOfSuffix(s, a, |r|);
  }

  lemma PrefixOfSuffix(s: string, a: nat, m: nat)
    requires a + m <= |s|
    ensures s[a..][..m] == s[a..a + m]
  {
  }

  /** Everything `strip` removes, before and after what it keeps, is white
      space. */
  lemma {:induction false} StripRemovesOnlySpace(s: string)
    ensures forall i :: 0 <= i < StripStart(s) ==> IsSpace(s[i])
    ensures forall i :: StripStart(s) + |Strip(s)| <= i < |s| ==> IsSpace(s[i])
  {
    var left, a, r := StripLeft(s), StripStart(s), Strip(s);
    assert forall i :: 0 <= i < a ==> IsSpace(s[i]) by {
      StripLeftRemovesSpace(s);
    }
    assert forall i :: a + |r| <= i < |s| ==> IsSpace(s[i]) by {
      StripRightRemovesSpace(left);
      assert |r| == |StripRight(left)| && left == s[a..];
      ShiftedSpace(s, a, |r|);
    }
  }

  /** White space from position `m` of `s[a..]` on is white space from
      `a + m` on in `s`. */
  lemma ShiftedSpace(s: string, a: nat, m: nat)
    requires a + m <= |s|
    requires forall i :: m <= i < |s[a..]| ==> IsSpace(s[a..][i])
    ensures forall i :: a + m <= i < |s| ==> IsSpace(s[i])
  {
    forall i | a + m <= i < |s| ensures IsSpace(s[i]) {
      assert s[i] == s[a..][i - a];
    }
  }

  /** `s.lower()` for ASCII letters; other characters are kept. */
  function Lower(s: string): (r: string)
    ensures |r| == |s|
    ensures forall i :: 0 <= i < |s| ==> r[i] == LowerChar(s[i])
  {
    seq(|s|, i requires 0 <= i < |s| => LowerChar(s[i]))
  }

  function LowerChar(c: char): char {
    if 'A' <= c <= 'Z' then (c as int + 32) as char else c
  }

  /** Lower-casing twice is lower-casing once. */
  lemma LowerIdempotent(s: string)
    ensures Lower(Lower(s)) == Lower(s)
  {
    assert forall i :: 0 <= i < |s| ==> LowerChar(LowerChar(s[i])) == LowerChar(s[i]);
  }

  /** `s.replace(from, to)` for single characters. */
  function ReplaceChar(s: string, from: char, to: char): (r: string)
    ensures |r| == |s|
    ensures forall i :: 0 <= i < |s| ==> r[i] == (if s[i] == from then to else s[i])
  {
    seq(|s|, i requires 0 <= i < |s| => if s[i] == from then to else s[i])
  }
}

/**
 * String helpers the download pipeline relies on: the standard-library
 * operations it calls (path extension, lower-casing, substring search,
 * removal of every occurrence of a key, decimal formatting of an int),
 * given the semantics of Go's `path/filepath`, `strings` and `strconv`
 * packages on a system whose path separator is '/'.
 */
module Text {

  /** os.PathSeparator. */
  const Sep: char := '/'
  const SepStr: string := [Sep]

  predicate HasPrefix(s: string, p: string) {
    |p| <= |s| && s[..|p|] == p
  }

  predicate HasSuffix(s: string, p: string) {
    |p| <= |s| && s[|s| - |p|..] == p
  }

  /** strings.Contains */
  predicate Contains(s: string, sub: string) {
    exists i :: 0 <= i <= |s| - |sub| && OccursAt(s, sub, i)
  }

  predicate OccursAt(s: string, sub: string, i: int) {
    0 <= i <= |s| - |sub| && s[i..i + |sub|] == sub
  }

  /** A string occurs in any string built around it. */
  lemma OccursBetween(a: string, b: string, c: string)
    ensures Contains(a + b + c, b)
  {
    assert (a + b + c)[|a|..|a| + |b|] == b;
    assert OccursAt(a + b + c, b, |a|);
  }

  lemma PrefixOfAppend(p: string, q: string)
    ensures HasPrefix(p + q, p)
  {
    assert (p + q)[..|p|] == p;
  }

  lemma PrefixExtends(s: string, p: string, q: string)
    requires HasPrefix(s, p)
    ensures HasPrefix(s + q, p)
  {
    assert (s + q)[..|p|] == s[..|p|];
  }

  lemma SuffixOfAppend(p: string, q: string)
    ensures HasSuffix(p + q, q)
  {
    assert (p + q)[|p|..] == q;
  }

  // ---------------------------------------------------------------------
  // filepath.Ext: the suffix starting at the final dot of the final path
  // element, or "" when that element has no dot.
  // ---------------------------------------------------------------------

  /** Index of the final dot of the final element of `path[..i]`, given that
      `path[i..]` holds neither a dot nor a separator; `|path|` when there is none. */
  function LastDotBefore(path: string, i: nat): (k: nat)
    requires i <= |path|
    requires forall j :: i <= j < |path| ==> path[j] != '.' && path[j] != Sep
    ensures k <= |path|
    ensures k < |path| ==> path[k] == '.'
    ensures forall j :: k < j < |path| ==> path[j] != '.' && path[j] != Sep
    ensures k == |path| ==> forall j :: 0 <= j < |path| && path[j] == '.' ==> Sep in path[j + 1..]
    decreases i
  {
    if i == 0 then |path|
    else if path[i - 1] == Sep then |path|
    else if path[i - 1] == '.' then i - 1
    else LastDotBefore(path, i - 1)
  }

  /** filepath.Ext */
  function Ext(path: string): (e: string)
    ensures HasSuffix(path, e)
    ensures e == "" || (e[0] == '.' && forall j :: 1 <= j < |e| ==> e[j] != '.' && e[j] != Sep)
  {
    var k := LastDotBefore(path, |path|);
    assert path[k..] == path[|path| - |path[k..]|..];
    path[k..]
  }

  // ---------------------------------------------------------------------
  // strings.ToLower, on the ASCII letters.
  // ---------------------------------------------------------------------

  predicate IsUpper(c: char) {
    'A' <= c <= 'Z'
  }

  function LowerChar(c: char): char {
    if IsUpper(c) then (c as int + 32) as char else c
  }

  function ToLower(s: string): (r: string)
    ensures |r| == |s|
    ensures forall i :: 0 <= i < |r| ==> !IsUpper(r[i])
    ensures forall i :: 0 <= i < |r| ==> (IsUpper(s[i]) || r[i] == s[i])
  {
    seq(|s|, i requires 0 <= i < |s| => LowerChar(s[i]))
  }

  // ---------------------------------------------------------------------
  // strings.ReplaceAll(s, key, ""), and the loop over a blacklist of keys.
  // ---------------------------------------------------------------------

  /** Removes every non-overlapping occurrence of `key`, scanning left to right.
      An empty key leaves the string as it is, as ReplaceAll does with an empty
      replacement. */
  function RemoveAll(s: string, key: string): (r: string)
    ensures |r| <= |s|
    ensures forall c :: c in r ==> c in s
    ensures |key| == 1 ==> key[0] !in r
    ensures |key| == 0 ==> r == s
    decreases |s|
  {
    if |key| == 0 || |s| < |key| then
      assert |key| == 1 ==> |s| == 0;
      s
    else if s[..|key|] == key then
      RemoveAll(s[|key|..], key)
    else
      var rest := RemoveAll(s[1..], key);
      assert forall c :: c in rest ==> c in s[1..];
      assert |key| == 1 ==> s[0] != key[0] by {
        if |key| == 1 { assert s[..1] == [s[0]]; }
      }
      [s[0]] + rest
  }

  /** Applies RemoveAll for every key of `keys`, in order. Every single-character
      key is gone from the result, and no character is introduced. */
  function Sanitize(s: string, keys: seq<string>): (r: string)
    ensures |r| <= |s|
    ensures forall c :: c in r ==> c in s
    ensures forall k :: 0 <= k < |keys| && |keys[k]| == 1 ==> keys[k][0] !in r
    decreases |keys|
  {
    if |keys| == 0 then s
    else
      var once := RemoveAll(s, keys[0]);
      var r := Sanitize(once, keys[1..]);
      assert forall k :: 1 <= k < |keys| ==> keys[k] == keys[1..][k - 1];
      r
  }

  // ---------------------------------------------------------------------
  // strconv.Itoa on naturals.
  // ---------------------------------------------------------------------

  function DigitChar(d: nat): (c: char)
    requires d < 10
    ensures '0' <= c <= '9'
  {
    (48 + d) as char
  }

  function Decimal(n: nat): (r: string)
    ensures 1 <= |r|
    ensures n < 10 <==> |r| == 1
    ensures r[|r| - 1] == DigitChar(n % 10)
    ensures forall k :: 0 <= k < |r| ==> '0' <= r[k] <= '9'
  {
    if n < 10 then [DigitChar(n)] else Decimal(n / 10) + [DigitChar(n % 10)]
  }

  /** Distinct numbers print differently. */
  lemma {:induction false} DecimalInjective(a: nat, b: nat)
    requires Decimal(a) == Decimal(b)
    ensures a == b
  {
    var da, db := Decimal(a), Decimal(b);
    assert a % 10 == b % 10 by {
      assert DigitChar(a % 10) == da[|da| - 1] == DigitChar(b % 10);
    }
    if 10 <= a {
      assert 10 <= b;
      assert Decimal(a / 10) == da[..|da| - 1] == Decimal(b / 10);
      DecimalInjective(a / 10, b / 10);
    } else {
      assert b < 10;
    }
  }

  /** strconv.Itoa on any integer. */
  function Itoa(n: int): (r: string)
    ensures n >= 0 ==> r == Decimal(n)
    ensures n < 0 ==> r == "-" + Decimal(-n)
  {
    if n < 0 then "-" + Decimal(-n) else Decimal(n)
  }

  // ---------------------------------------------------------------------
  // Folder paths built segment by segment.
  // ---------------------------------------------------------------------

  /** The relative folder path made of `segments`, each followed by the separator. */
  function JoinDirs(segments: seq<string>): (r: string)
    ensures segments != [] ==> HasSuffix(r, SepStr)
    ensures |r| >= |segments|
  {
    if segments == [] then ""
    else JoinDirs(segments[..|segments| - 1]) + segments[|segments| - 1] + SepStr
  }
}

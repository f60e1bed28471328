/** Shared string, option and dictionary helpers: the parts of Python's
    `str` and `dict` behaviour that the mailer's core relies on. */
module Common {

  datatype Option<T> = None | Some(value: T)

  /** Python's `str.isspace()` for one character: the ASCII whitespace and
      separator controls plus the Unicode space characters. */
  predicate IsSpace(c: char) {
    var n := c as int;
    (9 <= n <= 13) || (28 <= n <= 32) || n == 0x85 || n == 0xA0 || n == 0x1680
    || (0x2000 <= n <= 0x200A) || n == 0x2028 || n == 0x2029 || n == 0x202F
    || n == 0x205F || n == 0x3000
  }

  /** Lower-casing of one character (ASCII letters only). */
  function LowerChar(c: char): (r: char)
    ensures 'A' <= c <= 'Z' ==> 'a' <= r <= 'z'
    ensures !('A' <= c <= 'Z') ==> r == c
    ensures IsSpace(r) <==> IsSpace(c)
  {
    if 'A' <= c <= 'Z' then (c as int + 32) as char else c
  }

  function Lower(s: string): (r: string)
    ensures |r| == |s|
    ensures forall i :: 0 <= i < |s| ==> r[i] == LowerChar(s[i])
  {
    if s == [] then [] else [LowerChar(s[0])] + Lower(s[1..])
  }

  lemma LowerIdempotent(s: string)
    ensures Lower(Lower(s)) == Lower(s)
  {
  }

  /** The characters a trim drops. */
  datatype Drop = Spaces | Quotes | Delimiters

  predicate Drops(drop: Drop, c: char) {
    match drop
    case Spaces => IsSpace(c)
    case Quotes => c == '"'
    case Delimiters => c == ',' || c == ';' || IsSpace(c)
  }

  /** How many leading characters satisfy `drop`. */
  function Lead(s: string, drop: Drop): (n: nat)
    ensures n <= |s|
    ensures forall i :: 0 <= i < n ==> Drops(drop, s[i])
    ensures n < |s| ==> !Drops(drop, s[n])
  {
    if s != [] && Drops(drop, s[0]) then 1 + Lead(s[1..], drop) else 0
  }

  /** How many trailing characters satisfy `drop`. */
  function Trail(s: string, drop: Drop): (n: nat)
    ensures n <= |s|
    ensures forall i :: |s| - n <= i < |s| ==> Drops(drop, s[i])
    ensures n < |s| ==> !Drops(drop, s[|s| - n - 1])
  {
    if s != [] && Drops(drop, s[|s| - 1]) then 1 + Trail(s[..|s| - 1], drop) else 0
  }

  /** Drops the leading characters satisfying `drop`. */
  function TrimLeft(s: string, drop: Drop): string {
    s[Lead(s, drop)..]
  }

  /** Drops the trailing characters satisfying `drop`. */
  function TrimRight(s: string, drop: Drop): string {
    s[..|s| - Trail(s, drop)]
  }

  function Trim(s: string, drop: Drop): string {
    TrimRight(TrimLeft(s, drop), drop)
  }

  /** `random.choice` over `n` options with random draw `x`: the index of
      the option taken. Randomness is a stream `pick: nat -> nat` of draws. */
  function Choose(n: nat, x: nat): (i: nat)
    requires n > 0
    ensures i < n
  {
    x % n
  }

  /** Python's `str.strip()`. */
  function Strip(s: string): (r: string)
    ensures r != [] ==> !IsSpace(r[0]) && !IsSpace(r[|r| - 1])
    ensures |r| <= |s|
  {
    Trim(s, Spaces)
  }

  /** A text with nothing to trim at either end is its own trim. */
  lemma TrimNoEdges(s: string, drop: Drop)
    requires s == [] || (!Drops(drop, s[0]) && !Drops(drop, s[|s| - 1]))
    ensures Trim(s, drop) == s
  {
  }

  /** No whitespace at either end. */
  predicate Stripped(s: string) {
    s == [] || (!IsSpace(s[0]) && !IsSpace(s[|s| - 1]))
  }

  lemma StrippedIsStrip(s: string)
    requires Stripped(s)
    ensures Strip(s) == s
  {
    TrimNoEdges(s, Spaces);
  }

  lemma StripIdempotent(s: string)
    ensures Strip(Strip(s)) == Strip(s)
  {
    TrimNoEdges(Strip(s), Spaces);
  }

  /** Stripping only removes characters. */
  lemma StripSubset(s: string)
    ensures forall c :: c in Strip(s) ==> c in s
  {
    var l := TrimLeft(s, Spaces);
    var r := TrimRight(l, Spaces);
    forall c | c in r ensures c in s {
      var i :| 0 <= i < |r| && r[i] == c;
      assert l[i] == c;
      assert s[|s| - |l| + i] == c;
    }
  }

  /** Python's `str.strip('"')`. */
  function StripQuotes(s: string): string {
    Trim(s, Quotes)
  }

  predicate AllSpace(s: string) {
    forall i :: 0 <= i < |s| ==> IsSpace(s[i])
  }

  lemma StripEmptyIffAllSpace(s: string)
    ensures Strip(s) == [] <==> AllSpace(s)
  {
    var l := TrimLeft(s, Spaces);
    if l != [] {
      assert !IsSpace(l[0]);
      assert TrimRight(l, Spaces) != [];
      assert s[|s| - |l|] == l[0];
    }
  }

  predicate StartsWith(s: string, p: string) {
    |p| <= |s| && s[..|p|] == p
  }

  /** Every entry stripped: `[x.strip() for x in ps]`. */
  function StripAll(ps: seq<string>): (cs: seq<string>)
    ensures |cs| == |ps|
    ensures forall i :: 0 <= i < |cs| ==> cs[i] == Strip(ps[i])
  {
    seq(|ps|, i requires 0 <= i < |ps| => Strip(ps[i]))
  }

  /** Python's `str.split(sep)` for a one-character separator. */
  function Split(s: string, sep: char): (r: seq<string>)
    ensures |r| >= 1
    ensures forall k :: 0 <= k < |r| ==> sep !in r[k]
  {
    if s == [] then [""]
    else
      var rest := Split(s[1..], sep);
      if s[0] == sep then [""] + rest else [[s[0]] + rest[0]] + rest[1..]
  }

  /** Python's `sep.join(parts)`. */
  function Join(parts: seq<string>, sep: char): string {
    if parts == [] then ""
    else if |parts| == 1 then parts[0]
    else parts[0] + [sep] + Join(parts[1..], sep)
  }

  lemma {:induction false} JoinSplit(s: string, sep: char)
    ensures Join(Split(s, sep), sep) == s
  {
    if s != [] {
      JoinSplit(s[1..], sep);
      var rest := Split(s[1..], sep);
      if s[0] != sep {
        if |rest| > 1 {
          assert Join(rest, sep) == rest[0] + [sep] + Join(rest[1..], sep);
          assert Split(s, sep)[1..] == rest[1..];
        }
      }
    }
  }

  /** First index of `c` in `s`. */
  function IndexOf(s: string, c: char): (r: Option<nat>)
    ensures r.None? <==> c !in s
    ensures r.Some? ==> r.value < |s| && s[r.value] == c && c !in s[..r.value]
  {
    if s == [] then None
    else if s[0] == c then Some(0)
    else match IndexOf(s[1..], c)
      case None => None
      case Some(i) => assert s[1..][..i] == s[1..i + 1]; Some(i + 1)
  }

  /** The first `c` of `a + [c] + b` is the one after `a` when `a` holds none. */
  lemma {:induction false} IndexOfAfter(a: string, c: char, b: string)
    requires c !in a
    ensures IndexOf(a + [c] + b, c) == Some(|a|)
  {
    if a != [] {
      assert (a + [c] + b)[1..] == a[1..] + [c] + b;
      IndexOfAfter(a[1..], c, b);
    }
  }

  predicate OccursAt(s: string, t: string, j: nat) {
    j + |t| <= |s| && s[j..j + |t|] == t
  }

  /** First index at or after `from` where `t` occurs in `s`. */
  function FindFrom(s: string, t: string, from: nat): (r: Option<nat>)
    requires from <= |s|
    ensures r.Some? ==> from <= r.value && OccursAt(s, t, r.value)
    ensures r.Some? ==> forall j :: from <= j < r.value ==> !OccursAt(s, t, j)
    ensures r.None? ==> forall j :: from <= j ==> !OccursAt(s, t, j)
    decreases |s| - from
  {
    if from + |t| > |s| then None
    else if s[from..from + |t|] == t then Some(from)
    else if from == |s| then None
    else FindFrom(s, t, from + 1)
  }

  /** Python's `s.replace(t, u, 1)`. */
  function ReplaceFirst(s: string, t: string, u: string): string {
    match FindFrom(s, t, 0)
    case None => s
    case Some(i) => s[..i] + u + s[i + |t|..]
  }

  lemma ReplaceFirstSelf(s: string, t: string)
    ensures ReplaceFirst(s, t, t) == s
  {
    match FindFrom(s, t, 0)
    case None =>
    case Some(i) => assert s == s[..i] + s[i..i + |t|] + s[i + |t|..];
  }

  /** Python's `s.replace(t, u)` for a non-empty `t`: every non-overlapping
      occurrence, left to right. */
  function ReplaceAll(s: string, t: string, u: string): (r: string)
    requires t != []
    ensures FindFrom(s, t, 0).None? ==> r == s
    decreases |s|
  {
    match FindFrom(s, t, 0)
    case None => s
    case Some(i) => s[..i] + u + ReplaceAll(s[i + |t|..], t, u)
  }

  /** Python's `t in s` for strings. */
  predicate Contains(s: string, t: string) {
    FindFrom(s, t, 0).Some?
  }

  /** Python's `s[:n]`. */
  function Take(s: string, n: nat): (r: string)
    ensures |r| <= n && |r| <= |s| && r == s[..|r|]
    ensures |s| >= n ==> |r| == n
  {
    if |s| <= n then s else s[..n]
  }

  lemma ConcatAssoc<T>(a: seq<T>, b: seq<T>, c: seq<T>)
    ensures a + b + c == a + (b + c)
  {
  }

  /** An ordered Python dict with string keys and values, as its list of
      entries in insertion order. */
  type Dict = seq<(string, string)>

  function Keys(d: Dict): set<string> {
    if d == [] then {} else {d[0].0} + Keys(d[1..])
  }

  /** `d.get(k, default)`. */
  function Get(d: Dict, k: string, default: string): (r: string)
    ensures k !in Keys(d) ==> r == default
  {
    if d == [] then default
    else if d[0].0 == k then d[0].1
    else Get(d[1..], k, default)
  }

  /** `d[k] = v`: replaces the value in place when `k` is present, else appends. */
  function Set(d: Dict, k: string, v: string): (r: Dict)
    ensures Keys(r) == Keys(d) + {k}
    ensures forall dflt :: Get(r, k, dflt) == v
    ensures forall k', dflt :: k' != k ==> Get(r, k', dflt) == Get(d, k', dflt)
  {
    if d == [] then [(k, v)]
    else if d[0].0 == k then [(k, v)] + d[1..]
    else [d[0]] + Set(d[1..], k, v)
  }

  /** `d.get(k)`: the value of the first entry with key `k`, if any. */
  function Lookup(d: Dict, k: string): (r: Option<string>)
    ensures r.None? <==> k !in Keys(d)
    ensures r.Some? ==> forall dflt :: Get(d, k, dflt) == r.value
  {
    if d == [] then None
    else if d[0].0 == k then Some(d[0].1)
    else Lookup(d[1..], k)
  }

  /** `d.pop(k, None)`: drops the entries with key `k`. */
  function Remove(d: Dict, k: string): (r: Dict)
    ensures Keys(r) == Keys(d) - {k}
    ensures forall k', dflt :: k' != k ==> Get(r, k', dflt) == Get(d, k', dflt)
  {
    if d == [] then []
    else if d[0].0 == k then Remove(d[1..], k)
    else [d[0]] + Remove(d[1..], k)
  }
}

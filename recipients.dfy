/** `_parse_recipients`: a recipient string is cut at runs of commas,
    semicolons and whitespace, and the pieces that are valid addresses are
    kept once each, compared without regard to case. Address validity is a
    parameter: the source's pattern approximates the addr-spec of section
    3.4.1 of RFC 5322, and the model does not interpret it. */
module Recipients {
  import opened Common

  /** A character of the class `[,\s;]`. */
  predicate IsDelimiter(c: char) {
    c == ',' || c == ';' || IsSpace(c)
  }

  predicate NoDelimiter(w: string) {
    forall j :: 0 <= j < |w| ==> !IsDelimiter(w[j])
  }

  /** The longest prefix free of delimiters. */
  function Word(s: string): (w: string)
    ensures |w| <= |s| && w == s[..|w|] && NoDelimiter(w)
    ensures |w| < |s| ==> IsDelimiter(s[|w|])
  {
    if s == [] || IsDelimiter(s[0]) then [] else [s[0]] + Word(s[1..])
  }

  /** `re.split(r'[,\s;]+', s)`: the pieces between maximal runs of
      delimiters; a run at either end leaves an empty piece there. */
  function SplitOnRuns(s: string): (r: seq<string>)
    ensures |r| >= 1
    ensures forall k :: 0 <= k < |r| ==> NoDelimiter(r[k])
    decreases |s|
  {
    var w := Word(s);
    if |w| == |s| then [w]
    else [w] + SplitOnRuns(TrimLeft(s[|w|..], Delimiters))
  }

  /** A piece followed by a delimiter, or by nothing, is read whole. */
  lemma WordOfPiece(w: string, b: string)
    requires NoDelimiter(w) && (b == [] || IsDelimiter(b[0]))
    ensures Word(w + b) == w
  {
    if w != [] {
      assert (w + b)[1..] == w[1..] + b;
      WordOfPiece(w[1..], b);
    }
  }

  /** A text ending in a delimiter ends its first word inside itself. */
  lemma {:induction false} WordStopsInside(a: string, y: string)
    requires a != [] && IsDelimiter(a[|a| - 1])
    ensures Word(a + y) == Word(a) && |Word(a)| < |a|
  {
    if !IsDelimiter(a[0]) {
      assert (a + y)[1..] == a[1..] + y;
      WordStopsInside(a[1..], y);
    }
  }

  /** Trimming stops at the first character it keeps. */
  lemma {:induction false} LeadAppend(x: string, y: string)
    requires y == [] || !IsDelimiter(y[0])
    ensures Lead(x + y, Delimiters) == Lead(x, Delimiters)
    ensures TrimLeft(x + y, Delimiters) == TrimLeft(x, Delimiters) + y
  {
    if x != [] {
      assert (x + y)[1..] == x[1..] + y;
      LeadAppend(x[1..], y);
    }
  }

  /** Splitting a text that ends in a delimiter and then goes on with a
      non-delimiter: the first piece lies in the text, and the split goes on
      from a shorter text that still ends in that delimiter. */
  lemma SplitStep(a: string, y: string)
    requires a != [] && IsDelimiter(a[|a| - 1])
    requires y == [] || !IsDelimiter(y[0])
    ensures var a'' := TrimLeft(a[|Word(a)|..], Delimiters);
      && SplitOnRuns(a + y) == [Word(a)] + SplitOnRuns(a'' + y)
      && |a''| < |a| && (a'' == [] || a''[|a''| - 1] == a[|a| - 1])
  {
    WordStopsInside(a, y);
    var n := |Word(a)|;
    var a' := a[n..];
    assert (a + y)[n..] == a' + y;
    LeadAppend(a', y);
  }

  /** A non-empty run of non-delimiters standing between delimiters (or the
      ends of the text) is one of the pieces. */
  lemma PieceFound(a: string, w: string, b: string)
    requires w != [] && NoDelimiter(w)
    requires a == [] || IsDelimiter(a[|a| - 1])
    requires b == [] || IsDelimiter(b[0])
    ensures w in SplitOnRuns(a + w + b)
  {
    var y := w + b;
    assert a + w + b == a + y;
    assert y[..|w|] == w;
    PieceAt(a, y, w);
  }

  /** The same, for a text `a + y` where `y` opens with the piece `w`. */
  lemma {:induction false} PieceAt(a: string, y: string, w: string)
    requires w != [] && NoDelimiter(w)
    requires a == [] || IsDelimiter(a[|a| - 1])
    requires |w| <= |y| && y[..|w|] == w && (|w| == |y| || IsDelimiter(y[|w|]))
    ensures w in SplitOnRuns(a + y)
    decreases |a|
  {
    if a == [] {
      PieceFirst(y, w);
    } else {
      RestShorter(a);
      assert y[0] == w[0];
      PieceAt(Rest(a), y, w);
      PieceKept(a, y, w);
    }
  }

  lemma PieceFirst(y: string, w: string)
    requires w != [] && NoDelimiter(w)
    requires |w| <= |y| && y[..|w|] == w && (|w| == |y| || IsDelimiter(y[|w|]))
    ensures w in SplitOnRuns([] + y)
  {
    assert [] + y == y;
    WordOfPiece(w, y[|w|..]);
    assert y == w + y[|w|..];
    assert SplitOnRuns(y)[0] == w;
  }

  /** What is left of a text after its first word and the delimiters after it. */
  function Rest(a: string): string {
    TrimLeft(a[|Word(a)|..], Delimiters)
  }

  lemma RestShorter(a: string)
    requires a != [] && IsDelimiter(a[|a| - 1])
    ensures |Rest(a)| < |a| && (Rest(a) == [] || IsDelimiter(Rest(a)[|Rest(a)| - 1]))
  {
    SplitStep(a, []);
  }

  /** A piece of what follows the first word is a piece of the whole. */
  lemma PieceKept(a: string, y: string, w: string)
    requires a != [] && IsDelimiter(a[|a| - 1])
    requires y != [] && !IsDelimiter(y[0])
    requires w in SplitOnRuns(Rest(a) + y)
    ensures w in SplitOnRuns(a + y)
  {
    SplitStep(a, y);
  }

  /** The candidates the loop tests, each piece stripped. */
  function Candidates(s: string): seq<string> {
    StripAll(SplitOnRuns(s))
  }

  function LowerSet(r: seq<string>): set<string> {
    set i | 0 <= i < |r| :: Lower(r[i])
  }

  lemma LowerSetSnoc(r: seq<string>, x: string)
    ensures LowerSet(r + [x]) == LowerSet(r) + {Lower(x)}
  {
    var r' := r + [x];
    forall y | y in LowerSet(r') ensures y in LowerSet(r) + {Lower(x)} {
      var i :| 0 <= i < |r'| && Lower(r'[i]) == y;
      if i < |r| {
        assert r'[i] == r[i];
      }
    }
    forall y | y in LowerSet(r) ensures y in LowerSet(r') {
      var i :| 0 <= i < |r| && Lower(r[i]) == y;
      assert r'[i] == r[i];
    }
    assert Lower(r'[|r|]) in LowerSet(r');
  }

  /** The list the loop builds: a valid candidate is appended when no entry
      so far is equal to it ignoring case. */
  function FirstSeen(cs: seq<string>, valid: string -> bool): seq<string>
    decreases |cs|
  {
    if cs == [] then []
    else
      var r := FirstSeen(cs[..|cs| - 1], valid);
      var x := cs[|cs| - 1];
      if valid(x) && Lower(x) !in LowerSet(r) then r + [x] else r
  }

  lemma FirstSeenSnoc(cs: seq<string>, x: string, valid: string -> bool)
    ensures FirstSeen(cs + [x], valid) ==
      if valid(x) && Lower(x) !in LowerSet(FirstSeen(cs, valid)) then FirstSeen(cs, valid) + [x] else FirstSeen(cs, valid)
  {
    assert (cs + [x])[..|cs|] == cs;
  }

  /** `a` is `b` with some entries deleted. */
  predicate Subseq(a: seq<string>, b: seq<string>)
    decreases |b|
  {
    a == [] || (b != [] && ((a[|a| - 1] == b[|b| - 1] && Subseq(a[..|a| - 1], b[..|b| - 1])) || Subseq(a, b[..|b| - 1])))
  }

  /** No valid candidate before `k` equals `cs[k]` ignoring case. */
  predicate FirstOfItsKind(cs: seq<string>, valid: string -> bool, k: nat)
    requires k < |cs|
  {
    forall k' :: 0 <= k' < k && valid(cs[k']) ==> Lower(cs[k']) != Lower(cs[k])
  }

  /** Every entry is a valid candidate, no two entries are equal ignoring
      case, and the entries keep the candidates' order. */
  lemma {:induction false} FirstSeenSound(cs: seq<string>, valid: string -> bool)
    ensures forall i :: 0 <= i < |FirstSeen(cs, valid)| ==> FirstSeen(cs, valid)[i] in cs && valid(FirstSeen(cs, valid)[i])
    ensures forall i, j :: 0 <= i < j < |FirstSeen(cs, valid)| ==> Lower(FirstSeen(cs, valid)[i]) != Lower(FirstSeen(cs, valid)[j])
    ensures Subseq(FirstSeen(cs, valid), cs)
    decreases |cs|
  {
    if cs != [] {
      var p := cs[..|cs| - 1];
      FirstSeenSound(p, valid);
      var r := FirstSeen(p, valid);
      var x := cs[|cs| - 1];
      assert forall i :: 0 <= i < |r| ==> r[i] in cs by {
        forall i | 0 <= i < |r| ensures r[i] in cs {
          var k :| 0 <= k < |p| && p[k] == r[i];
          assert cs[k] == r[i];
        }
      }
      if valid(x) && Lower(x) !in LowerSet(r) {
        var r' := r + [x];
        assert r'[..|r'| - 1] == r;
        forall i, j | 0 <= i < j < |r'| ensures Lower(r'[i]) != Lower(r'[j]) {
          if j == |r| {
            assert Lower(r[i]) in LowerSet(r);
          }
        }
      }
    }
  }

  /** Every valid candidate is represented, ignoring case. */
  lemma {:induction false} FirstSeenCovers(cs: seq<string>, valid: string -> bool)
    ensures forall k :: 0 <= k < |cs| && valid(cs[k]) ==> Lower(cs[k]) in LowerSet(FirstSeen(cs, valid))
    decreases |cs|
  {
    if cs != [] {
      var n := |cs| - 1;
      var p := cs[..n];
      FirstSeenCovers(p, valid);
      var r := FirstSeen(p, valid);
      var x := cs[n];
      var r' := FirstSeen(cs, valid);
      assert LowerSet(r) <= LowerSet(r') by {
        if r' != r {
          LowerSetSnoc(r, x);
        }
      }
      forall k | 0 <= k < |cs| && valid(cs[k])
        ensures Lower(cs[k]) in LowerSet(r')
      {
        if k < n {
          assert p[k] == cs[k];
        } else if Lower(x) !in LowerSet(r) {
          LowerSetSnoc(r, x);
        }
      }
    }
  }

  /** The first valid spelling of each address is the one kept. */
  lemma {:induction false} FirstSeenKeepsFirstSpelling(cs: seq<string>, valid: string -> bool)
    ensures forall k :: 0 <= k < |cs| && valid(cs[k]) && FirstOfItsKind(cs, valid, k) ==> cs[k] in FirstSeen(cs, valid)
    decreases |cs|
  {
    if cs != [] {
      var n := |cs| - 1;
      var p := cs[..n];
      FirstSeenKeepsFirstSpelling(p, valid);
      FirstSeenSound(p, valid);
      var r := FirstSeen(p, valid);
      var x := cs[n];
      var r' := FirstSeen(cs, valid);
      assert forall y :: y in r ==> y in r' by {
        if r' != r {
          assert r' == r + [x];
        }
      }
      forall k | 0 <= k < |cs| && valid(cs[k]) && FirstOfItsKind(cs, valid, k)
        ensures cs[k] in r'
      {
        if k < n {
          assert p[k] == cs[k];
          assert FirstOfItsKind(p, valid, k) by {
            forall k' | 0 <= k' < k && valid(p[k']) ensures Lower(p[k']) != Lower(p[k]) {
              assert p[k'] == cs[k'];
            }
          }
          assert cs[k] in r;
        } else {
          assert Lower(x) !in LowerSet(r);
          assert r' == r + [x];
        }
      }
    }
  }

  /** One more piece, stripped, extends the candidates seen so far. */
  lemma CandidatesStep(pieces: seq<string>, i: nat, valid: string -> bool)
    requires i < |pieces|
    ensures var cs := StripAll(pieces);
      FirstSeen(cs[..i + 1], valid) ==
        var r := FirstSeen(cs[..i], valid);
        var x := Strip(pieces[i]);
        if valid(x) && Lower(x) !in LowerSet(r) then r + [x] else r
  {
    var cs := StripAll(pieces);
    assert cs[..i + 1] == cs[..i] + [Strip(pieces[i])];
    FirstSeenSnoc(cs[..i], Strip(pieces[i]), valid);
  }

  /** The loop of `_parse_recipients` over the split pieces. */
  method KeepFirstSeen(pieces: seq<string>, valid: string -> bool) returns (r: seq<string>)
    ensures r == FirstSeen(StripAll(pieces), valid)
  {
    ghost var cs := StripAll(pieces);
    r := [];
    assert cs[..0] == [];
    var seen: set<string> := {};
    var i := 0;
    while i < |pieces|
      invariant 0 <= i <= |pieces|
      invariant r == FirstSeen(cs[..i], valid)
      invariant seen == LowerSet(r)
    {
      var candidate := Strip(pieces[i]);
      CandidatesStep(pieces, i, valid);
      if valid(candidate) {
        var lowered := Lower(candidate);
        if lowered !in seen {
          LowerSetSnoc(r, candidate);
          seen := seen + {lowered};
          r := r + [candidate];
        }
      }
      i := i + 1;
    }
    assert cs[..i] == cs;
  }

  /** What `_parse_recipients(s)` returns: nothing for blank input. */
  function Parsed(input: string, valid: string -> bool): seq<string> {
    if AllSpace(input) then [] else FirstSeen(Candidates(input), valid)
  }

  /** The result holds only valid addresses, none twice ignoring case. */
  lemma ParsedSound(input: string, valid: string -> bool)
    ensures forall i :: 0 <= i < |Parsed(input, valid)| ==> valid(Parsed(input, valid)[i])
    ensures forall i, j :: 0 <= i < j < |Parsed(input, valid)| ==> Lower(Parsed(input, valid)[i]) != Lower(Parsed(input, valid)[j])
  {
    if !AllSpace(input) {
      FirstSeenSound(Candidates(input), valid);
    }
  }

  /** `_parse_recipients(s)` with the address check `valid`. */
  method ParseRecipients(input: string, valid: string -> bool) returns (r: seq<string>)
    ensures r == Parsed(input, valid)
    ensures AllSpace(input) ==> r == []
    ensures forall i :: 0 <= i < |r| ==> valid(r[i])
    ensures forall i, j :: 0 <= i < j < |r| ==> Lower(r[i]) != Lower(r[j])
  {
    StripEmptyIffAllSpace(input);
    if input == [] || Strip(input) == [] {
      return [];
    }
    var pieces := SplitOnRuns(input);
    r := KeepFirstSeen(pieces, valid);
    FirstSeenSound(Candidates(input), valid);
  }
}

/** `process_spintax_in_text`: up to ten passes, each resolving the first
    innermost `{...}` group of the text. Randomness is the stream `pick`:
    the k-th call of `random.choice` over n options takes `pick(k) % n`. */
module Spintax {
  import opened Common

  const MaxPasses: nat := 10

  predicate IsBrace(c: char) { c == '{' || c == '}' }

  /** First brace at or after `j`. */
  function NextBrace(s: string, j: nat): (r: Option<nat>)
    requires j <= |s|
    ensures r.Some? ==> j <= r.value < |s| && IsBrace(s[r.value])
    ensures r.Some? ==> forall m :: j <= m < r.value ==> !IsBrace(s[m])
    ensures r.None? ==> forall m :: j <= m < |s| ==> !IsBrace(s[m])
    decreases |s| - j
  {
    if j == |s| then None
    else if IsBrace(s[j]) then Some(j)
    else NextBrace(s, j + 1)
  }

  /** `s[p..e]` is a match of `\{([^{}]*?)\}`. */
  predicate GroupAt(s: string, p: nat, e: nat) {
    p + 2 <= e <= |s| && s[p] == '{' && s[e - 1] == '}'
    && forall k :: p < k < e - 1 ==> !IsBrace(s[k])
  }

  /** `spintax_pattern.search(s)` from position `from`: the leftmost group. */
  function FirstGroup(s: string, from: nat): (r: Option<(nat, nat)>)
    ensures r.Some? ==> from <= r.value.0 && GroupAt(s, r.value.0, r.value.1)
    decreases |s| - from
  {
    if from >= |s| then None
    else
      var close := NextBrace(s, from + 1);
      if s[from] == '{' && close.Some? && s[close.value] == '}' then Some((from, close.value + 1))
      else FirstGroup(s, from + 1)
  }

  /** The search finds the leftmost group, and finds one whenever there is one. */
  lemma {:induction false} FirstGroupLeftmost(s: string, from: nat)
    ensures FirstGroup(s, from).Some? ==> forall q, e :: from <= q < FirstGroup(s, from).value.0 ==> !GroupAt(s, q, e)
    ensures FirstGroup(s, from).None? ==> forall q, e :: from <= q ==> !GroupAt(s, q, e)
    decreases |s| - from
  {
    if from < |s| {
      var close := NextBrace(s, from + 1);
      if !(s[from] == '{' && close.Some? && s[close.value] == '}') {
        FirstGroupLeftmost(s, from + 1);
      }
    }
  }

  /** The options of a group's content: split at `|`, each one stripped. */
  function Options(content: string): (opts: seq<string>)
    ensures |opts| == |Split(content, '|')| >= 1
    ensures forall i :: 0 <= i < |opts| ==> opts[i] == Strip(Split(content, '|')[i])
  {
    StripAll(Split(content, '|'))
  }

  /** Every option is free of `|` and of whitespace at either end. */
  lemma OptionStripped(content: string, i: nat)
    requires i < |Options(content)|
    ensures var o := Options(content)[i];
      '|' !in o && (o != [] ==> !IsSpace(o[0]) && !IsSpace(o[|o| - 1]))
  {
    var part := Split(content, '|')[i];
    assert Options(content)[i] == Strip(part);
    StripSubset(part);
  }

  /** One pass of the loop body from random draw `d`: `None` when the search
      finds no group, else the rewritten text and the next draw. */
  function Pass(t: string, pick: nat -> nat, d: nat): Option<(string, nat)> {
    match FirstGroup(t, 0)
    case None => None
    case Some((p, e)) =>
      var group := t[p..e];
      var content := t[p + 1..e - 1];
      if '|' in content then
        var opts := Options(content);
        Some((ReplaceFirst(t, group, opts[Choose(|opts|, pick(d))]), d + 1))
      else
        Some((ReplaceFirst(t, group, group), d))
  }

  /** Pass on a text whose first group has no `|`. */
  lemma PassPlain(t: string, p: nat, e: nat, pick: nat -> nat, d: nat)
    requires FirstGroup(t, 0) == Some((p, e)) && '|' !in t[p + 1..e - 1]
    ensures Pass(t, pick, d) == Some((ReplaceFirst(t, t[p..e], t[p..e]), d))
  {
  }

  /** Pass on a text whose first group has a `|`. */
  lemma PassChoice(t: string, p: nat, e: nat, pick: nat -> nat, d: nat)
    requires FirstGroup(t, 0) == Some((p, e)) && '|' in t[p + 1..e - 1]
    ensures var opts := Options(t[p + 1..e - 1]);
      Pass(t, pick, d) == Some((ReplaceFirst(t, t[p..e], opts[Choose(|opts|, pick(d))]), d + 1))
  {
  }

  /** At most `n` passes, stopping early when no group is left. */
  function Passes(t: string, n: nat, pick: nat -> nat, d: nat): (string, nat)
    decreases n
  {
    if n == 0 then (t, d)
    else match Pass(t, pick, d)
      case None => (t, d)
      case Some((t', d')) => Passes(t', n - 1, pick, d')
  }

  /** One step of `Passes`, stated for the loop that computes it. */
  lemma PassesStep(t: string, n: nat, pick: nat -> nat, d: nat, t': string, d': nat)
    requires n > 0 && Pass(t, pick, d) == Some((t', d'))
    ensures Passes(t, n, pick, d) == Passes(t', n - 1, pick, d')
  {
  }

  /** The whole function, with its quick return for text without `{`. */
  function Spin(text: string, pick: nat -> nat, d: nat): (string, nat) {
    if text == [] || '{' !in text then (text, d) else Passes(text, MaxPasses, pick, d)
  }

  /** A text that holds `g` at `q`, where `g` is itself a group, has a group at `q`. */
  lemma OccurrenceIsGroup(s: string, p: nat, e: nat, q: nat)
    requires GroupAt(s, p, e) && OccursAt(s, s[p..e], q)
    ensures GroupAt(s, q, q + (e - p))
  {
    var g := s[p..e];
    assert s[q] == g[0] && s[q + (e - p) - 1] == g[e - p - 1];
    forall k | q < k < q + (e - p) - 1 ensures !IsBrace(s[k]) {
      assert s[k] == g[k - q] == s[p + (k - q)];
    }
  }

  /** Replacing the first occurrence of the group's text replaces the group
      the search found: no copy of it occurs earlier. */
  lemma {:induction false} ReplaceFirstHitsGroup(s: string, p: nat, e: nat, u: string)
    requires FirstGroup(s, 0) == Some((p, e))
    ensures ReplaceFirst(s, s[p..e], u) == s[..p] + u + s[e..]
  {
    var g := s[p..e];
    FirstGroupLeftmost(s, 0);
    assert OccursAt(s, g, p);
    match FindFrom(s, g, 0)
    case None =>
      assert false;
    case Some(i) =>
      if i < p {
        OccurrenceIsGroup(s, p, e, i);
        assert false;
      }
      assert i == p;
  }

  /** With no `{` in the text the loop changes nothing, so the quick return
      is only a shortcut. */
  lemma {:induction false} NoBraceNoChange(t: string, n: nat, pick: nat -> nat, d: nat)
    requires '{' !in t
    ensures Passes(t, n, pick, d) == (t, d)
  {
  
  }

  /** A first group without `|` is replaced by itself, so every later pass
      finds it again: the text is returned as it is and any spintax after
      that group is never reached. */
  lemma {:induction false} GroupWithoutPipeIsStuck(t: string, p: nat, e: nat, n: nat, pick: nat -> nat, d: nat)
    requires FirstGroup(t, 0) == Some((p, e)) && '|' !in t[p + 1..e - 1]
    ensures Passes(t, n, pick, d) == (t, d)
  {
    if n > 0 {
      ReplaceFirstSelf(t, t[p..e]);
      PassPlain(t, p, e, pick, d);
      GroupWithoutPipeIsStuck(t, p, e, n - 1, pick, d);
    }
  }

  /** A first group with `|` is replaced, in place, by the option the draw
      picks, and one random draw is taken. */
  lemma ChoiceReplacesGroup(t: string, p: nat, e: nat, n: nat, pick: nat -> nat, d: nat)
    requires n > 0 && FirstGroup(t, 0) == Some((p, e)) && '|' in t[p + 1..e - 1]
    ensures var opts := Options(t[p + 1..e - 1]);
      var o := opts[Choose(|opts|, pick(d))];
      Passes(t, n, pick, d) == Passes(t[..p] + o + t[e..], n - 1, pick, d + 1)
  {
    var opts := Options(t[p + 1..e - 1]);
    var o := opts[Choose(|opts|, pick(d))];
    ReplaceFirstHitsGroup(t, p, e, o);
    PassChoice(t, p, e, pick, d);
  }

  /** At most ten rewrites happen: no more than ten random draws are taken. */
  lemma {:induction false} AtMostOneDrawPerPass(t: string, n: nat, pick: nat -> nat, d: nat)
    ensures d <= Passes(t, n, pick, d).1 <= d + n
    decreases n
  {
    if n > 0 {
      match Pass(t, pick, d)
      case None =>
      case Some((t', d')) =>
        assert d' <= d + 1;
        AtMostOneDrawPerPass(t', n - 1, pick, d');
    }
  }

  /** `process_spintax_in_text`; `draws` is the random stream's position
      before the call, `draws'` after it. */
  method ProcessSpintax(text: string, pick: nat -> nat, draws: nat) returns (r: string, draws': nat)
    ensures (r, draws') == Spin(text, pick, draws)
    ensures draws <= draws' <= draws + MaxPasses
    ensures '{' !in text ==> r == text && draws' == draws
  {
    if text == [] || '{' !in text {
      return text, draws;
    }
    AtMostOneDrawPerPass(text, MaxPasses, pick, draws);
    ghost var goal := Passes(text, MaxPasses, pick, draws);
    r, draws' := text, draws;
    var k := 0;
    while k < MaxPasses
      invariant 0 <= k <= MaxPasses
      invariant Passes(r, MaxPasses - k, pick, draws') == goal
    {
      var m := FirstGroup(r, 0);
      if m.None? {
        assert Pass(r, pick, draws') == None;
        break;
      }
      var (p, e) := m.value;
      var content := r[p + 1..e - 1];
      if '|' in content {
        var options := Options(content);
        var chosen := options[Choose(|options|, pick(draws'))];
        var next := ReplaceFirst(r, r[p..e], chosen);
        PassChoice(r, p, e, pick, draws');
        PassesStep(r, MaxPasses - k, pick, draws', next, draws' + 1);
        r, draws' := next, draws' + 1;
      } else {
        var next := ReplaceFirst(r, r[p..e], r[p..e]);
        PassPlain(r, p, e, pick, draws');
        PassesStep(r, MaxPasses - k, pick, draws', next, draws');
        r := next;
      }
      k := k + 1;
    }
  }
}

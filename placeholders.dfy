/** The first two passes of `_resolve_all_placeholders_and_tags`: every
    entry `(k, v)` of a dictionary replaces the placeholders `{{ k }}` of
    the text, matched ignoring case and with optional whitespace inside the
    braces, by `v`. */
module Placeholders {
  import opened Common

  /** The length of the whitespace run at `q`, as the greedy `\s*` takes it. */
  function SpaceRun(s: string, q: nat): (n: nat)
    requires q <= |s|
    ensures q + n <= |s|
    ensures forall i :: q <= i < q + n ==> IsSpace(s[i])
    ensures q + n < |s| ==> !IsSpace(s[q + n])
    decreases |s| - q
  {
    if q < |s| && IsSpace(s[q]) then 1 + SpaceRun(s, q + 1) else 0
  }

  /** `re.escape(key)` under `re.IGNORECASE` matches at `q`. */
  predicate KeyAt(s: string, q: nat, key: string) {
    q + |key| <= |s| && forall i :: 0 <= i < |key| ==> LowerChar(s[q + i]) == LowerChar(key[i])
  }

  /** `\s*\}\}` from `q`: the end of the match, if any. A shorter run of
      whitespace cannot help, since `}` is not whitespace. */
  function TailEnd(s: string, q: nat): (r: Option<nat>)
    requires q <= |s|
    ensures r.Some? ==> q + 2 <= r.value <= |s|
  {
    var m := q + SpaceRun(s, q);
    if m + 2 <= |s| && s[m] == '}' && s[m + 1] == '}' then Some(m + 2) else None
  }

  /** The leading `\s*` backtracks from `i` characters down to none. */
  function HeadTry(s: string, p: nat, key: string, i: nat): (r: Option<nat>)
    requires p + 2 + i <= |s|
    ensures r.Some? ==> p + 4 + |key| <= r.value <= |s|
    decreases i
  {
    var q := p + 2 + i;
    if KeyAt(s, q, key) && TailEnd(s, q + |key|).Some? then TailEnd(s, q + |key|)
    else if i == 0 then None
    else HeadTry(s, p, key, i - 1)
  }

  /** The end of a match of `\{\{\s*KEY\s*\}\}` starting at `p`, if any. */
  function MatchAt(s: string, key: string, p: nat): (r: Option<nat>)
    requires p <= |s|
    ensures r.Some? ==> p + 4 + |key| <= r.value <= |s| && s[p] == '{'
  {
    if p + 2 <= |s| && s[p] == '{' && s[p + 1] == '{' then HeadTry(s, p, key, SpaceRun(s, p + 2)) else None
  }

  /** `re.sub` from `pos`: matches are replaced left to right and never overlap. */
  function SubFrom(s: string, key: string, value: string, pos: nat): string
    requires pos <= |s|
    decreases |s| - pos
  {
    if pos == |s| then []
    else match MatchAt(s, key, pos)
      case Some(e) => value + SubFrom(s, key, value, e)
      case None => [s[pos]] + SubFrom(s, key, value, pos + 1)
  }

  /** `re.sub(r"\{\{\s*" + re.escape(key) + r"\s*\}\}", value, s, flags=re.IGNORECASE)`. */
  function Substitute(s: string, key: string, value: string): string {
    SubFrom(s, key, value, 0)
  }

  /** Where no placeholder for `key` starts, the text is copied. */
  lemma {:induction false} SubFromNoMatch(s: string, key: string, value: string, pos: nat)
    requires pos <= |s|
    requires forall p :: pos <= p <= |s| ==> MatchAt(s, key, p).None?
    ensures SubFrom(s, key, value, pos) == s[pos..]
    decreases |s| - pos
  {
    if pos < |s| {
      SubFromNoMatch(s, key, value, pos + 1);
      assert s[pos..] == [s[pos]] + s[pos + 1..];
    }
  }

  /** A text without `{` holds no placeholder and is left as it is. */
  lemma NoBraceUnchanged(s: string, key: string, value: string)
    requires '{' !in s
    ensures Substitute(s, key, value) == s
  {
    forall p | 0 <= p <= |s| ensures MatchAt(s, key, p).None? {
      if p < |s| {
        assert s[p] in s;
      }
    }
    SubFromNoMatch(s, key, value, 0);
  }

  predicate Blank(w: string) {
    forall i :: 0 <= i < |w| ==> IsSpace(w[i])
  }

  /** The greedy run is determined by where the whitespace stops. */
  lemma SpaceRunIs(s: string, q: nat, n: nat)
    requires q + n <= |s| && forall i :: q <= i < q + n ==> IsSpace(s[i])
    requires q + n < |s| ==> !IsSpace(s[q + n])
    ensures SpaceRun(s, q) == n
  {
  }

  /** A match that spans the whole text replaces it by the value. */
  lemma WholeMatch(s: string, key: string, value: string)
    requires MatchAt(s, key, 0) == Some(|s|)
    ensures Substitute(s, key, value) == value
  {
    assert |s| > 0;
    assert SubFrom(s, key, value, |s|) == [];
  }

  /** The positions of a placeholder text `{{` lead word trail `}}`. */
  lemma PlaceholderLayout(s: string, lead: string, word: string, trail: string)
    requires s == "{{" + lead + word + trail + "}}"
    ensures |s| == |lead| + |word| + |trail| + 4
    ensures s[0] == '{' && s[1] == '{'
    ensures forall i :: 0 <= i < |lead| ==> s[2 + i] == lead[i]
    ensures forall i :: 0 <= i < |word| ==> s[2 + |lead| + i] == word[i]
    ensures forall i :: 0 <= i < |trail| ==> s[2 + |lead| + |word| + i] == trail[i]
    ensures s[|s| - 2] == '}' && s[|s| - 1] == '}'
  {
  }

  /** A text that is `{{`, `a` whitespace characters, the key, `c`
      whitespace characters and `}}` is one match of the key. */
  lemma WholePlaceholder(s: string, key: string, value: string, a: nat, c: nat)
    requires |s| == a + |key| + c + 4
    requires s[0] == '{' && s[1] == '{' && s[|s| - 2] == '}' && s[|s| - 1] == '}'
    requires forall i :: 2 <= i < 2 + a ==> IsSpace(s[i])
    requires KeyAt(s, 2 + a, key)
    requires forall i :: 2 + a + |key| <= i < 2 + a + |key| + c ==> IsSpace(s[i])
    requires key == [] || !IsSpace(key[0])
    ensures Substitute(s, key, value) == value
  {
    var q := 2 + a + |key|;
    SpaceRunIs(s, q, c);
    assert TailEnd(s, q) == Some(|s|);
    if key == [] {
      SpaceRunIs(s, 2, a + c);
    } else {
      assert LowerChar(s[2 + a]) == LowerChar(key[0]);
      SpaceRunIs(s, 2, a);
    }
    assert HeadTry(s, 0, key, SpaceRun(s, 2)) == Some(|s|);
    WholeMatch(s, key, value);
  }

  /** A placeholder written `{{`, whitespace, the key in any letter case,
      whitespace, `}}` becomes the value, provided the key does not itself
      start with whitespace (the dictionary keys are stripped). */
  lemma PlaceholderResolves(lead: string, word: string, trail: string, key: string, value: string)
    requires Blank(lead) && Blank(trail)
    requires Lower(word) == Lower(key)
    requires key == [] || !IsSpace(key[0])
    ensures Substitute("{{" + lead + word + trail + "}}", key, value) == value
  {
    var s := "{{" + lead + word + trail + "}}";
    PlaceholderLayout(s, lead, word, trail);
    assert KeyAt(s, 2 + |lead|, key) by {
      forall i | 0 <= i < |key| ensures LowerChar(s[2 + |lead| + i]) == LowerChar(key[i]) {
        assert LowerChar(word[i]) == Lower(word)[i] == Lower(key)[i];
      }
    }
    forall i | 2 <= i < 2 + |lead| ensures IsSpace(s[i]) {
      assert s[2 + (i - 2)] == lead[i - 2];
    }
    forall i | 2 + |lead| + |key| <= i < 2 + |lead| + |key| + |trail| ensures IsSpace(s[i]) {
      assert s[2 + |lead| + |word| + (i - 2 - |lead| - |word|)] == trail[i - 2 - |lead| - |word|];
    }
    WholePlaceholder(s, key, value, |lead|, |trail|);
  }

  /** The whole pass: every entry in the dictionary's order. */
  function SubstituteAll(s: string, entries: Dict): string
    decreases |entries|
  {
    if entries == [] then s else SubstituteAll(Substitute(s, entries[0].0, entries[0].1), entries[1..])
  }

  /** A text without `{` goes through the whole pass unchanged. */
  lemma {:induction false} NoBraceUnchangedAll(s: string, entries: Dict)
    requires '{' !in s
    ensures SubstituteAll(s, entries) == s
    decreases |entries|
  {
    if entries != [] {
      NoBraceUnchanged(s, entries[0].0, entries[0].1);
      NoBraceUnchangedAll(s, entries[1..]);
    }
  }

  /** A template that is one placeholder of the first entry resolves to that
      entry's value when the value holds no `{` for later entries to match. */
  lemma FirstEntryResolves(lead: string, word: string, trail: string, entries: Dict)
    requires entries != [] && Blank(lead) && Blank(trail)
    requires Lower(word) == Lower(entries[0].0)
    requires entries[0].0 == [] || !IsSpace(entries[0].0[0])
    requires '{' !in entries[0].1
    ensures SubstituteAll("{{" + lead + word + trail + "}}", entries) == entries[0].1
  {
    PlaceholderResolves(lead, word, trail, entries[0].0, entries[0].1);
    NoBraceUnchangedAll(entries[0].1, entries[1..]);
  }

  /** The loop over the dictionary's items; an empty dictionary skips it. */
  method ResolvePlaceholders(text: string, entries: Dict) returns (r: string)
    ensures r == SubstituteAll(text, entries)
  {
    r := text;
    var i := 0;
    while i < |entries|
      invariant 0 <= i <= |entries|
      invariant SubstituteAll(r, entries[i..]) == SubstituteAll(text, entries)
    {
      var (key, value) := entries[i];
      assert entries[i..][1..] == entries[i + 1..];
      r := Substitute(r, key, value);
      i := i + 1;
    }
  }
}

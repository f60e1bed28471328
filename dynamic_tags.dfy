/** The third pass of `_resolve_all_placeholders_and_tags`: the dynamic
    tags `{{[...]}}` and `#{{[token]}}`, the character sets and random
    strings behind them, and the per-job boundary cache that makes a
    boundary tag resolve to one value throughout a job. */
module DynamicTags {
  import opened Common
  import opened Placeholders

  const Digits: string := "0123456789"
  const Lowercase: string := "abcdefghijklmnopqrstuvwxyz"
  const Uppercase: string := "ABCDEFGHIJKLMNOPQRSTUVWXYZ"
  const Symbols: string := "!@#$%^&*()-_=+[]{};:'\",.<>/?~`|"

  /** The keys of `CHAR_SETS`. */
  const KnownSets: set<string> := {"n", "l", "u", "s", "a", "lu", "ln", "un"}

  /** `CHAR_SETS.get(key, CHAR_SETS['a'])`: an unknown key falls back to the
      letters and digits. */
  function CharSet(key: string): (cs: string)
    ensures cs != []
    ensures key !in KnownSets ==> cs == Lowercase + Uppercase + Digits
  {
    if key == "n" then Digits
    else if key == "l" then Lowercase
    else if key == "u" then Uppercase
    else if key == "s" then Symbols
    else if key == "lu" then Lowercase + Uppercase
    else if key == "ln" then Lowercase + Digits
    else if key == "un" then Uppercase + Digits
    else Lowercase + Uppercase + Digits
  }

  /** `generate_random_string(n, key)`, the i-th character from draw `d + i`. */
  function RandomString(n: nat, key: string, pick: nat -> nat, d: nat): (r: string)
    ensures |r| == n
    ensures forall i :: 0 <= i < |r| ==> r[i] in CharSet(key)
    decreases n
  {
    if n == 0 then []
    else
      var cs := CharSet(key);
      [cs[Choose(|cs|, pick(d))]] + RandomString(n - 1, key, pick, d + 1)
  }

  /** `v` is `n` characters of the set named `key`. */
  predicate Fits(v: string, n: nat, key: string) {
    |v| == n && forall i :: 0 <= i < |v| ==> v[i] in CharSet(key)
  }

  const TokenTag: string := "#{{[token]}}"
  const Open: string := "{{["
  const Close: string := "]}}"

  /** A match of the tag pattern: the token tag or a bracketed tag. */
  datatype Tag = Token | Bracketed(content: string)

  function TagText(t: Tag): string {
    match t
    case Token => TokenTag
    case Bracketed(c) => Open + c + Close
  }

  /** The lazy `.*?\]\}\}` from `j`: the first `]}}` with no line break before it. */
  function CloseFrom(s: string, j: nat): (r: Option<nat>)
    requires j <= |s|
    ensures r.Some? ==> j <= r.value && OccursAt(s, Close, r.value)
    ensures r.Some? ==> forall k :: j <= k < r.value ==> s[k] != '\n'
    decreases |s| - j
  {
    if j + 3 > |s| then None
    else if s[j..j + 3] == Close then Some(j)
    else if s[j] == '\n' then None
    else CloseFrom(s, j + 1)
  }

  /** The pattern `(#\{\{\[token\]\}\}|\{\{\[.*?\]\}\})` at `pos`: the tag
      and the end of the match. */
  function TagAt(s: string, pos: nat): (r: Option<(Tag, nat)>)
    requires pos <= |s|
    ensures r.Some? ==> pos < r.value.1 <= |s|
  {
    if OccursAt(s, TokenTag, pos) then Some((Token, pos + 12))
    else if OccursAt(s, Open, pos) then
      match CloseFrom(s, pos + 3)
      case None => None
      case Some(q) => Some((Bracketed(s[pos + 3..q]), q + 3))
    else None
  }

  /** The match is the tag's text. */
  lemma TagAtText(s: string, pos: nat)
    requires pos <= |s| && TagAt(s, pos).Some?
    ensures s[pos..TagAt(s, pos).value.1] == TagText(TagAt(s, pos).value.0)
  {
    var (tag, e) := TagAt(s, pos).value;
    if OccursAt(s, TokenTag, pos) {
      assert |TokenTag| == 12;
      assert tag == Token && e == pos + 12;
    } else {
      assert OccursAt(s, Open, pos) && |Open| == 3;
      var q := CloseFrom(s, pos + 3).value;
      assert OccursAt(s, Close, q) && |Close| == 3;
      assert tag == Bracketed(s[pos + 3..q]) && e == q + 3;
      ThreeSlices(s, pos, pos + 3, q, q + 3);
    }
  }

  lemma ThreeSlices(s: string, a: nat, b: nat, c: nat, d: nat)
    requires a <= b <= c <= d <= |s|
    ensures s[a..d] == s[a..b] + s[b..c] + s[c..d]
  {
  }

  /** `rnd<set>_<n>` (fresh) or `bnd<set>_<n>` (cached). */
  datatype SizedTag = SizedTag(boundary: bool, setKey: string, length: nat)

  predicate IsSetChar(c: char) { c in "nalus" }

  predicate IsDigit(c: char) { '0' <= c <= '9' }

  function DigitValue(c: char): nat {
    if IsDigit(c) then c as int - '0' as int else 0
  }

  /** `int()` of a run of decimal digits. */
  function DigitsValue(ds: string): nat
    decreases |ds|
  {
    if ds == [] then 0
    else 10 * DigitsValue(ds[..|ds| - 1]) + DigitValue(ds[|ds| - 1])
  }

  /** `re.match(r"^(rnd|bnd)([nalus]{1,2})_(\d+)$", key)`. The greedy
      `{1,2}` cannot backtrack usefully: a set character is never `_`. */
  function ParseSized(key: string): (r: Option<SizedTag>)
    ensures r.Some? ==> |key| >= 6 && (key[..3] == "rnd" || key[..3] == "bnd")
  {
    if |key| < 6 || (key[..3] != "rnd" && key[..3] != "bnd") || !IsSetChar(key[3]) then None
    else
      var u := if IsSetChar(key[4]) then 5 else 4;
      if u + 1 < |key| && key[u] == '_' && forall k :: u + 1 <= k < |key| ==> IsDigit(key[k]) then
        Some(SizedTag(key[..3] == "bnd", key[3..u], DigitsValue(key[u + 1..])))
      else None
  }

  /** A sized key is a prefix, one or two set letters, `_` and a run of digits. */
  predicate SizedShape(pre: string, setKey: string, ds: string) {
    && (pre == "rnd" || pre == "bnd")
    && 1 <= |setKey| <= 2 && (forall k :: 0 <= k < |setKey| ==> IsSetChar(setKey[k]))
    && ds != [] && (forall k :: 0 <= k < |ds| ==> IsDigit(ds[k]))
  }

  /** Every key of the sized shape parses to its own parts. */
  lemma ParseSizedRoundTrip(pre: string, setKey: string, ds: string)
    requires SizedShape(pre, setKey, ds)
    ensures ParseSized(pre + setKey + "_" + ds) == Some(SizedTag(pre == "bnd", setKey, DigitsValue(ds)))
  {
    var key := pre + setKey + "_" + ds;
    var u := 3 + |setKey|;
    assert key[..3] == pre;
    assert key[3..u] == setKey;
    assert key[u] == '_';
    assert key[u + 1..] == ds;
    assert IsSetChar(key[3]) by { assert key[3] == setKey[0]; }
    assert IsSetChar(key[4]) <==> |setKey| == 2 by {
      if |setKey| == 2 { assert key[4] == setKey[1]; } else { assert key[4] == '_'; }
    }
    forall k | u + 1 <= k < |key| ensures IsDigit(key[k]) {
      assert key[k] == ds[k - u - 1];
    }
  }

  /** Only keys of the sized shape parse: a parse gives back the parts it read. */
  lemma ParseSizedShape(key: string)
    requires ParseSized(key).Some?
    ensures var st := ParseSized(key).value; var u := 3 + |st.setKey|;
      && u + 1 < |key|
      && SizedShape(key[..3], st.setKey, key[u + 1..])
      && key == key[..3] + st.setKey + "_" + key[u + 1..]
      && st.boundary == (key[..3] == "bnd") && st.length == DigitsValue(key[u + 1..])
  {
    var st := ParseSized(key).value;
    var u := if IsSetChar(key[4]) then 5 else 4;
    assert st.setKey == key[3..u];
    assert key == key[..3] + key[3..u] + "_" + key[u + 1..] by {
      assert key[u..u + 1] == "_";
      assert key == key[..3] + key[3..u] + key[u..u + 1] + key[u + 1..];
    }
    var ds := key[u + 1..];
    forall k | 0 <= k < |ds| ensures IsDigit(ds[k]) {
      assert ds[k] == key[u + 1 + k];
    }
  }

  /** The largest length a sized tag may ask for. */
  const MaxTagLength: nat := 1024

  /** What the replacer does with a tag, before any randomness: reuse or
      create a cache entry, draw a fresh string, return a value, or keep
      the tag text. */
  datatype Action =
    | Cached(entry: string, length: nat, setKey: string)
    | Fresh(length: nat, setKey: string)
    | Value(v: string)
    | Keep

  /** The branches of `dynamic_tag_replacer_func`; `uuid` is the fresh id
      text and `now` the formatted clock reading. */
  function Classify(t: Tag, ctx: Dict, uuid: string, now: string): Action {
    match t
    case Token => Cached(TokenTag, 12, "a")
    case Bracketed(c) => KeyAction(Strip(c), TagText(t), ctx, uuid, now)
  }

  /** The branches for a bracketed tag whose stripped content is `key`. */
  function KeyAction(key: string, full: string, ctx: Dict, uuid: string, now: string): Action {
      if key == "ide" then Value(Get(ctx, "email_id", Take(uuid, 12)))
      else if key == "date" then Value(now)
      else if key == "tag" then Fresh(8, "a")
      else if key == "rnd" then Fresh(18, "a")
      else if key == "fromname" then Value(Get(ctx, "current_from_name_for_job", ""))
      else if key == "subject" then Value(Get(ctx, "current_subject_for_job", ""))
      else if key == "to" then Value(Get(ctx, "current_recipient_email", ""))
      else if key == "name" then
        var to := Get(ctx, "current_recipient_email", "");
        Value(if '@' in to then Split(to, '@')[0] else "")
      else if key == "smtp" then Value(Get(ctx, "smtp_username_for_tag", ""))
      else if key == "smtp_name" then Value(Get(ctx, "smtp_server_nickname_for_tag", ""))
      else SizedAction(key, full)
  }

  /** The length and set of a valid `bnd<set>_<n>` word. */
  function BoundaryEntry(key: string): Option<(nat, string)> {
    match ParseSized(key)
    case Some(st) => if st.boundary && 0 < st.length <= MaxTagLength then Some((st.length, st.setKey)) else None
    case None => None
  }

  /** The `rnd<set>_<n>` and `bnd<set>_<n>` branch. */
  function SizedAction(key: string, full: string): Action {
    match ParseSized(key)
    case None => Keep
    case Some(st) =>
      if !(0 < st.length <= MaxTagLength) then Keep
      else if st.boundary then Cached(full, st.length, st.setKey)
      else Fresh(st.length, st.setKey)
  }

  /** The fixed words of the replacer. */
  const FixedKeys: set<string> := {"ide", "date", "tag", "rnd", "fromname", "subject", "to", "name", "smtp", "smtp_name"}

  /** No fixed word has the shape of a sized tag. */
  lemma FixedNotSized(key: string)
    requires key in FixedKeys
    ensures ParseSized(key).None?
  {
  }

  /** A fixed word never goes through the cache. */
  lemma FixedNotCached(key: string, full: string, ctx: Dict, uuid: string, now: string)
    requires key in FixedKeys
    ensures !KeyAction(key, full, ctx, uuid, now).Cached?
  {
  }

  /** A word that is not fixed goes to the sized branch. */
  lemma KeyActionSized(key: string, full: string, ctx: Dict, uuid: string, now: string)
    requires key !in FixedKeys
    ensures KeyAction(key, full, ctx, uuid, now) == SizedAction(key, full)
  {
  }

  /** The sized branch uses the cache exactly for valid `bnd` words. */
  lemma SizedActionCached(key: string, full: string)
    ensures SizedAction(key, full).Cached? <==> BoundaryEntry(key).Some?
    ensures BoundaryEntry(key).Some? ==>
      SizedAction(key, full) == Cached(full, BoundaryEntry(key).value.0, BoundaryEntry(key).value.1)
  {
  }

  /** A bracketed tag's text gives back its content. */
  lemma TagTextParts(c: string)
    ensures var k := Open + c + Close;
      |k| >= 6 && k[..3] == Open && k[|k| - 3..] == Close && k[3..|k| - 3] == c && k[0] == '{'
  {
  }

  /** The tag texts the cache may hold, with the length and set of their
      value: the token tag, and a valid `bnd` tag. */
  function Cacheable(k: string): Option<(nat, string)> {
    if k == TokenTag then Some((12, "a"))
    else if |k| >= 6 && k[..3] == Open && k[|k| - 3..] == Close then BoundaryEntry(Strip(k[3..|k| - 3]))
    else None
  }

  /** A bracketed tag's text is cacheable exactly when its word is a valid
      `bnd` word. */
  lemma CacheableBracketed(c: string)
    ensures Cacheable(Open + c + Close) == BoundaryEntry(Strip(c))
  {
    TagTextParts(c);
    assert (Open + c + Close)[0] != TokenTag[0];
  }

  /** Every cache entry is a cacheable tag mapped to a value of its size. */
  predicate CacheOk(cache: map<string, string>) {
    forall k :: k in cache ==> Cacheable(k).Some? && Fits(cache[k], Cacheable(k).value.0, Cacheable(k).value.1)
  }

  /** The replacer on an action: its value, the cache after, the next draw. */
  function Apply(a: Action, full: string, cache: map<string, string>, pick: nat -> nat, d: nat): (string, map<string, string>, nat) {
    match a
    case Cached(k, n, key) =>
      if k in cache then (cache[k], cache, d)
      else var v := RandomString(n, key, pick, d); (v, cache[k := v], d + n)
    case Fresh(n, key) => (RandomString(n, key, pick, d), cache, d + n)
    case Value(v) => (v, cache, d)
    case Keep => (full, cache, d)
  }

  /** The replacer goes through the cache exactly for the tags whose text
      is cacheable, keyed by that text and with the size it announces. */
  lemma ClassifyCached(t: Tag, ctx: Dict, uuid: string, now: string)
    ensures Classify(t, ctx, uuid, now).Cached? <==> Cacheable(TagText(t)).Some?
    ensures Cacheable(TagText(t)).Some? ==>
      Classify(t, ctx, uuid, now) == Cached(TagText(t), Cacheable(TagText(t)).value.0, Cacheable(TagText(t)).value.1)
  {
    if t.Bracketed? {
      var key := Strip(t.content);
      CacheableBracketed(t.content);
      SizedActionCached(key, TagText(t));
      if key in FixedKeys {
        FixedNotSized(key);
        FixedNotCached(key, TagText(t), ctx, uuid, now);
      } else {
        KeyActionSized(key, TagText(t), ctx, uuid, now);
      }
    }
  }

  /** Words that are not tags, and sized tags whose length is outside
      1..1024, are left as they are. */
  predicate Recognised(key: string) {
    key in FixedKeys
    || (ParseSized(key).Some? && 0 < ParseSized(key).value.length <= MaxTagLength)
  }

  lemma UnrecognisedKept(key: string, full: string, ctx: Dict, uuid: string, now: string)
    requires !Recognised(key)
    ensures KeyAction(key, full, ctx, uuid, now) == Keep
  {
  }

  /** `rnd`, `bnd`, `tag` and the token tag produce exactly the announced
      number of characters of the announced set, a cached value included. */
  lemma ApplyFits(t: Tag, ctx: Dict, uuid: string, now: string, cache: map<string, string>, pick: nat -> nat, d: nat)
    requires CacheOk(cache)
    ensures var a := Classify(t, ctx, uuid, now);
      (a.Cached? ==> Fits(Apply(a, TagText(t), cache, pick, d).0, a.length, a.setKey))
      && (a.Fresh? ==> Fits(Apply(a, TagText(t), cache, pick, d).0, a.length, a.setKey))
  {
    ClassifyCached(t, ctx, uuid, now);
  }

  /** The cache only grows, keeps its entries' values and stays well formed. */
  lemma ApplyCache(a: Action, full: string, cache: map<string, string>, pick: nat -> nat, d: nat)
    requires a.Cached? ==> Cacheable(a.entry) == Some((a.length, a.setKey))
    ensures var (v, c, d') := Apply(a, full, cache, pick, d);
      && (forall k :: k in cache ==> k in c && c[k] == cache[k])
      && (CacheOk(cache) ==> CacheOk(c))
      && (a.Cached? ==> a.entry in c && c[a.entry] == v)
      && d <= d'
  {
  }

  /** The outcome of the scan: the rewritten text, the cache, the next draw,
      and each tag text met with the value that replaced it. */
  datatype Scan = Scan(out: string, cache: map<string, string>, draws: nat, events: seq<(string, string)>)

  /** `dynamic_tag_pattern_regex.sub(replacer, s)` from `pos`. */
  function ScanFrom(s: string, pos: nat, ctx: Dict, uuid: string, now: string, pick: nat -> nat, cache: map<string, string>, d: nat): Scan
    requires pos <= |s|
    decreases |s| - pos
  {
    if pos == |s| then Scan([], cache, d, [])
    else match TagAt(s, pos)
      case None =>
        var rest := ScanFrom(s, pos + 1, ctx, uuid, now, pick, cache, d);
        rest.(out := [s[pos]] + rest.out)
      case Some((t, e)) =>
        var full := TagText(t);
        var (v, c, d') := Apply(Classify(t, ctx, uuid, now), full, cache, pick, d);
        var rest := ScanFrom(s, e, ctx, uuid, now, pick, c, d');
        rest.(out := v + rest.out, events := [(full, v)] + rest.events)
  }

  /** The step of the scan at a character that starts no tag. */
  lemma ScanAtChar(s: string, pos: nat, ctx: Dict, uuid: string, now: string, pick: nat -> nat, cache: map<string, string>, d: nat)
    requires pos < |s| && TagAt(s, pos).None?
    ensures var r := ScanFrom(s, pos, ctx, uuid, now, pick, cache, d);
      var rest := ScanFrom(s, pos + 1, ctx, uuid, now, pick, cache, d);
      r.cache == rest.cache && r.draws == rest.draws && r.events == rest.events
  {
  }

  /** The step of the scan at a tag. */
  lemma ScanAtTag(s: string, pos: nat, ctx: Dict, uuid: string, now: string, pick: nat -> nat, cache: map<string, string>, d: nat, t: Tag, e: nat)
    requires pos < |s| && TagAt(s, pos) == Some((t, e))
    ensures var (v, c, d') := Apply(Classify(t, ctx, uuid, now), TagText(t), cache, pick, d);
      var r := ScanFrom(s, pos, ctx, uuid, now, pick, cache, d);
      var rest := ScanFrom(s, e, ctx, uuid, now, pick, c, d');
      r.cache == rest.cache && r.draws == rest.draws && r.events == [(TagText(t), v)] + rest.events
  {
  }

  /** Where the scan goes on from `pos`: past the character, or past the
      tag with the cache and draw the replacement left. */
  function NextAt(s: string, pos: nat, ctx: Dict, uuid: string, now: string, pick: nat -> nat, cache: map<string, string>, d: nat): (n: (nat, map<string, string>, nat))
    requires pos < |s|
    ensures pos < n.0 <= |s|
  {
    match TagAt(s, pos)
    case None => (pos + 1, cache, d)
    case Some((t, e)) =>
      var (v, c, d') := Apply(Classify(t, ctx, uuid, now), TagText(t), cache, pick, d);
      (e, c, d')
  }

  /** The scan keeps the entries it was given, keeps the cache well formed,
      and only moves the random stream forward. */
  lemma {:induction false} ScanKeeps(s: string, pos: nat, ctx: Dict, uuid: string, now: string, pick: nat -> nat, cache: map<string, string>, d: nat)
    requires pos <= |s|
    ensures var r := ScanFrom(s, pos, ctx, uuid, now, pick, cache, d);
      && (forall k :: k in cache ==> k in r.cache && r.cache[k] == cache[k])
      && (CacheOk(cache) ==> CacheOk(r.cache))
      && d <= r.draws
    decreases |s| - pos
  {
    if pos < |s| {
      match TagAt(s, pos)
      case None =>
        ScanKeeps(s, pos + 1, ctx, uuid, now, pick, cache, d);
        ScanAtChar(s, pos, ctx, uuid, now, pick, cache, d);
      case Some((t, e)) =>
        var a := Classify(t, ctx, uuid, now);
        ClassifyCached(t, ctx, uuid, now);
        ApplyCache(a, TagText(t), cache, pick, d);
        var (v, c, d') := Apply(a, TagText(t), cache, pick, d);
        ScanKeeps(s, e, ctx, uuid, now, pick, c, d');
        ScanAtTag(s, pos, ctx, uuid, now, pick, cache, d, t, e);
    }
  }

  /** A cacheable tag text met with `v` is cached with that value. */
  predicate EventCached(ev: (string, string), cache: map<string, string>) {
    Cacheable(ev.0).Some? ==> ev.0 in cache && cache[ev.0] == ev.1
  }

  predicate AllCached(events: seq<(string, string)>, cache: map<string, string>) {
    forall i :: 0 <= i < |events| ==> EventCached(events[i], cache)
  }

  lemma AllCachedCons(ev: (string, string), events: seq<(string, string)>, cache: map<string, string>)
    requires EventCached(ev, cache) && AllCached(events, cache)
    ensures AllCached([ev] + events, cache)
  {
    var all := [ev] + events;
    forall i | 0 <= i < |all| ensures EventCached(all[i], cache) {
      if i == 0 {
        assert all[i] == ev;
      } else {
        assert all[i] == events[i - 1];
      }
    }
  }

  /** The scan's step at a tag keeps every met tag consistent with the cache. */
  lemma ConsistentAtTag(s: string, pos: nat, ctx: Dict, uuid: string, now: string, pick: nat -> nat, cache: map<string, string>, d: nat, t: Tag, e: nat)
    requires pos < |s| && TagAt(s, pos) == Some((t, e))
    requires var (v, c, d') := Apply(Classify(t, ctx, uuid, now), TagText(t), cache, pick, d);
      var rest := ScanFrom(s, e, ctx, uuid, now, pick, c, d');
      AllCached(rest.events, rest.cache)
    ensures var r := ScanFrom(s, pos, ctx, uuid, now, pick, cache, d);
      AllCached(r.events, r.cache)
  {
    var full := TagText(t);
    var a := Classify(t, ctx, uuid, now);
    var (v, c, d') := Apply(a, full, cache, pick, d);
    var rest := ScanFrom(s, e, ctx, uuid, now, pick, c, d');
    assert EventCached((full, v), rest.cache) by {
      ClassifyCached(t, ctx, uuid, now);
      ApplyCache(a, full, cache, pick, d);
      ScanKeeps(s, e, ctx, uuid, now, pick, c, d');
    }
    ScanAtTag(s, pos, ctx, uuid, now, pick, cache, d, t, e);
    AllCachedCons((full, v), rest.events, rest.cache);
  }

  /** One step of the scan keeps every met tag consistent with the cache. */
  lemma ConsistentStep(s: string, pos: nat, ctx: Dict, uuid: string, now: string, pick: nat -> nat, cache: map<string, string>, d: nat)
    requires pos < |s|
    requires var n := NextAt(s, pos, ctx, uuid, now, pick, cache, d);
      var rest := ScanFrom(s, n.0, ctx, uuid, now, pick, n.1, n.2);
      AllCached(rest.events, rest.cache)
    ensures var r := ScanFrom(s, pos, ctx, uuid, now, pick, cache, d);
      AllCached(r.events, r.cache)
  {
    match TagAt(s, pos)
    case None =>
      ScanAtChar(s, pos, ctx, uuid, now, pick, cache, d);
    case Some((t, e)) =>
      ConsistentAtTag(s, pos, ctx, uuid, now, pick, cache, d, t, e);
  }

  /** Every cacheable tag the scan met was replaced by the value the final
      cache holds for that tag text. */
  lemma {:induction false} ScanConsistent(s: string, pos: nat, ctx: Dict, uuid: string, now: string, pick: nat -> nat, cache: map<string, string>, d: nat)
    requires pos <= |s|
    ensures var r := ScanFrom(s, pos, ctx, uuid, now, pick, cache, d);
      AllCached(r.events, r.cache)
    decreases |s| - pos
  {
    if pos < |s| {
      var n := NextAt(s, pos, ctx, uuid, now, pick, cache, d);
      ScanConsistent(s, n.0, ctx, uuid, now, pick, n.1, n.2);
      ConsistentStep(s, pos, ctx, uuid, now, pick, cache, d);
    }
  }

  /** Within one scan, two occurrences of the same `bnd` tag text, or of the
      token tag, receive the same value. */
  lemma SameBoundaryTagSameValue(s: string, ctx: Dict, uuid: string, now: string, pick: nat -> nat, cache: map<string, string>, d: nat, i: nat, j: nat)
    requires var r := ScanFrom(s, 0, ctx, uuid, now, pick, cache, d);
      i < |r.events| && j < |r.events| && r.events[i].0 == r.events[j].0 && Cacheable(r.events[i].0).Some?
    ensures var r := ScanFrom(s, 0, ctx, uuid, now, pick, cache, d);
      r.events[i].1 == r.events[j].1
  {
    ScanConsistent(s, 0, ctx, uuid, now, pick, cache, d);
  }

  /** The size a generated tag announces: the token tag, `tag`, `rnd`, and
      the valid `rnd<set>_<n>` and `bnd<set>_<n>` words. */
  function KeySize(key: string): Option<(nat, string)> {
    if key == "tag" then Some((8, "a"))
    else if key == "rnd" then Some((18, "a"))
    else match ParseSized(key)
      case Some(st) => if 0 < st.length <= MaxTagLength then Some((st.length, st.setKey)) else None
      case None => None
  }

  function Sized(k: string): Option<(nat, string)> {
    if k == TokenTag then Some((12, "a"))
    else if |k| >= 6 && k[..3] == Open && k[|k| - 3..] == Close then KeySize(Strip(k[3..|k| - 3]))
    else None
  }

  /** Among the fixed words only `tag` and `rnd` generate text. */
  lemma FixedSized(key: string, full: string, ctx: Dict, uuid: string, now: string)
    requires key in FixedKeys
    ensures var a := KeyAction(key, full, ctx, uuid, now);
      (a.Cached? || a.Fresh?) <==> KeySize(key).Some?
    ensures var a := KeyAction(key, full, ctx, uuid, now);
      KeySize(key).Some? ==> a.Fresh? && KeySize(key).value == (a.length, a.setKey)
  {
    FixedNotSized(key);
  }

  /** The sized branch generates text exactly for the valid sized words. */
  lemma SizedActionSized(key: string, full: string)
    requires key != "tag" && key != "rnd"
    ensures var a := SizedAction(key, full);
      (a.Cached? || a.Fresh?) <==> KeySize(key).Some?
    ensures var a := SizedAction(key, full);
      KeySize(key).Some? ==> KeySize(key).value == (a.length, a.setKey)
  {
  }

  /** The replacer generates text exactly for the sized tags, of the size
      the tag's text announces. */
  lemma ClassifySized(t: Tag, ctx: Dict, uuid: string, now: string)
    ensures var a := Classify(t, ctx, uuid, now);
      (a.Cached? || a.Fresh?) <==> Sized(TagText(t)).Some?
    ensures var a := Classify(t, ctx, uuid, now);
      Sized(TagText(t)).Some? ==> (a.Cached? || a.Fresh?) && Sized(TagText(t)).value == (a.length, a.setKey)
  {
    if t.Bracketed? {
      var key := Strip(t.content);
      TagTextParts(t.content);
      assert TagText(t)[0] != TokenTag[0];
      assert Sized(TagText(t)) == KeySize(key);
      if key in FixedKeys {
        FixedSized(key, TagText(t), ctx, uuid, now);
      } else {
        KeyActionSized(key, TagText(t), ctx, uuid, now);
        SizedActionSized(key, TagText(t));
      }
    }
  }

  /** A sized tag text met with `v`: `v` fits the announced size and set. */
  predicate EventFits(ev: (string, string)) {
    Sized(ev.0).Some? ==> Fits(ev.1, Sized(ev.0).value.0, Sized(ev.0).value.1)
  }

  predicate AllFit(events: seq<(string, string)>) {
    forall i :: 0 <= i < |events| ==> EventFits(events[i])
  }

  lemma AllFitCons(ev: (string, string), events: seq<(string, string)>)
    requires EventFits(ev) && AllFit(events)
    ensures AllFit([ev] + events)
  {
    var all := [ev] + events;
    forall i | 0 <= i < |all| ensures EventFits(all[i]) {
      if i == 0 {
        assert all[i] == ev;
      } else {
        assert all[i] == events[i - 1];
      }
    }
  }

  /** The cache the scan goes on with stays well formed. */
  lemma NextCacheOk(s: string, pos: nat, ctx: Dict, uuid: string, now: string, pick: nat -> nat, cache: map<string, string>, d: nat)
    requires pos < |s| && CacheOk(cache)
    ensures CacheOk(NextAt(s, pos, ctx, uuid, now, pick, cache, d).1)
  {
    match TagAt(s, pos)
    case None =>
    case Some((t, e)) =>
      ClassifyCached(t, ctx, uuid, now);
      ApplyCache(Classify(t, ctx, uuid, now), TagText(t), cache, pick, d);
  }

  /** One step of the scan: a tag's value fits what the tag announces. */
  lemma FitsStep(s: string, pos: nat, ctx: Dict, uuid: string, now: string, pick: nat -> nat, cache: map<string, string>, d: nat)
    requires pos < |s| && CacheOk(cache)
    requires var n := NextAt(s, pos, ctx, uuid, now, pick, cache, d);
      AllFit(ScanFrom(s, n.0, ctx, uuid, now, pick, n.1, n.2).events)
    ensures AllFit(ScanFrom(s, pos, ctx, uuid, now, pick, cache, d).events)
  {
    match TagAt(s, pos)
    case None =>
      ScanAtChar(s, pos, ctx, uuid, now, pick, cache, d);
    case Some((t, e)) =>
      var full := TagText(t);
      var a := Classify(t, ctx, uuid, now);
      var (v, c, d') := Apply(a, full, cache, pick, d);
      assert EventFits((full, v)) by {
        ClassifySized(t, ctx, uuid, now);
        ApplyFits(t, ctx, uuid, now, cache, pick, d);
      }
      ScanAtTag(s, pos, ctx, uuid, now, pick, cache, d, t, e);
      AllFitCons((full, v), ScanFrom(s, e, ctx, uuid, now, pick, c, d').events);
  }

  /** Every generated value the scan produced, cached or fresh, has exactly
      the announced length and only characters of the announced set. */
  lemma {:induction false} ScanFits(s: string, pos: nat, ctx: Dict, uuid: string, now: string, pick: nat -> nat, cache: map<string, string>, d: nat)
    requires pos <= |s| && CacheOk(cache)
    ensures AllFit(ScanFrom(s, pos, ctx, uuid, now, pick, cache, d).events)
    decreases |s| - pos
  {
    if pos < |s| {
      var n := NextAt(s, pos, ctx, uuid, now, pick, cache, d);
      NextCacheOk(s, pos, ctx, uuid, now, pick, cache, d);
      ScanFits(s, n.0, ctx, uuid, now, pick, n.1, n.2);
      FitsStep(s, pos, ctx, uuid, now, pick, cache, d);
    }
  }

  /** The token tag holds `{{[` one character in. */
  lemma TokenHasOpen(s: string, pos: nat)
    requires OccursAt(s, TokenTag, pos)
    ensures pos + 1 <= |s| && OccursAt(s, Open, pos + 1)
  {
    assert s[pos + 1..pos + 4] == s[pos..pos + 12][1..4];
  }

  /** A text with no `{{[` holds no tag and is returned as it is, with the
      cache and the random stream untouched. */
  lemma {:induction false} NoTagUnchanged(s: string, pos: nat, ctx: Dict, uuid: string, now: string, pick: nat -> nat, cache: map<string, string>, d: nat)
    requires pos <= |s|
    requires forall p :: pos <= p <= |s| ==> !OccursAt(s, Open, p)
    ensures ScanFrom(s, pos, ctx, uuid, now, pick, cache, d) == Scan(s[pos..], cache, d, [])
    decreases |s| - pos
  {
    if pos < |s| {
      if OccursAt(s, TokenTag, pos) {
        TokenHasOpen(s, pos);
        assert false;
      }
      NoTagUnchanged(s, pos + 1, ctx, uuid, now, pick, cache, d);
      assert s[pos..] == [s[pos]] + s[pos + 1..];
    }
  }

  /** The whole resolution: `None` becomes the empty text; otherwise the
      data placeholders, then the context placeholders, then the tags. */
  function Resolve(template: Option<string>, data: Dict, ctx: Dict, uuid: string, now: string, pick: nat -> nat, cache: map<string, string>, d: nat): Scan {
    match template
    case None => Scan("", cache, d, [])
    case Some(t) => ScanFrom(SubstituteAll(SubstituteAll(t, data), ctx), 0, ctx, uuid, now, pick, cache, d)
  }

  /** The cache dictionary a job's resolutions share, updated in place. */
  class BoundaryCache {
    var entries: map<string, string>

    constructor()
      ensures entries == map[]
    {
      entries := map[];
    }

    /** The replacer's effect for an action: a cache entry is created only
        when the tag text is not yet in the cache. */
    method ApplyAction(a: Action, full: string, pick: nat -> nat, draws: nat) returns (v: string, draws': nat)
      modifies this
      ensures var res := Apply(a, full, old(entries), pick, draws);
        v == res.0 && entries == res.1 && draws' == res.2
    {
      match a
      case Cached(k, n, key) =>
        draws' := draws;
        if k !in entries {
          entries := entries[k := RandomString(n, key, pick, draws)];
          draws' := draws + n;
        }
        v := entries[k];
      case Fresh(n, key) =>
        v, draws' := RandomString(n, key, pick, draws), draws + n;
      case Value(x) =>
        v, draws' := x, draws;
      case Keep =>
        v, draws' := full, draws;
    }

    /** One position of the substitution: the replaced tag that starts there,
        or the character copied. */
    method Step(s: string, pos: nat, ctx: Dict, uuid: string, now: string, pick: nat -> nat, draws: nat)
      returns (piece: string, pos': nat, draws': nat)
      requires pos < |s|
      modifies this
      ensures pos < pos' <= |s|
      ensures var before := ScanFrom(s, pos, ctx, uuid, now, pick, old(entries), draws);
        var after := ScanFrom(s, pos', ctx, uuid, now, pick, entries, draws');
        before.out == piece + after.out && before.cache == after.cache && before.draws == after.draws
    {
      match TagAt(s, pos)
      case None =>
        piece, pos', draws' := [s[pos]], pos + 1, draws;
      case Some((t, e)) =>
        piece, draws' := ApplyAction(Classify(t, ctx, uuid, now), TagText(t), pick, draws);
        pos' := e;
    }

    /** The substitution over the whole text. */
    method ResolveTags(s: string, ctx: Dict, uuid: string, now: string, pick: nat -> nat, draws: nat) returns (r: string, draws': nat)
      modifies this
      ensures var sc := ScanFrom(s, 0, ctx, uuid, now, pick, old(entries), draws);
        r == sc.out && entries == sc.cache && draws' == sc.draws
    {
      ghost var whole := ScanFrom(s, 0, ctx, uuid, now, pick, entries, draws);
      r, draws' := [], draws;
      var pos := 0;
      while pos < |s|
        invariant 0 <= pos <= |s|
        invariant var rest := ScanFrom(s, pos, ctx, uuid, now, pick, entries, draws');
          r + rest.out == whole.out && rest.cache == whole.cache && rest.draws == whole.draws
        decreases |s| - pos
      {
        var piece;
        piece, pos, draws' := Step(s, pos, ctx, uuid, now, pick, draws');
        r := r + piece;
      }
    }

    /** `_resolve_all_placeholders_and_tags`. */
    method ResolveAll(template: Option<string>, data: Dict, ctx: Dict, uuid: string, now: string, pick: nat -> nat, draws: nat) returns (r: string, draws': nat)
      modifies this
      ensures var sc := Resolve(template, data, ctx, uuid, now, pick, old(entries), draws);
        r == sc.out && entries == sc.cache && draws' == sc.draws
    {
      if template.None? {
        return "", draws;
      }
      var text := ResolvePlaceholders(template.value, data);
      text := ResolvePlaceholders(text, ctx);
      r, draws' := ResolveTags(text, ctx, uuid, now, pick, draws);
    }
  }
}

/** The parts of job preparation that shape a job's headers and sender:
    the cleaning of data column headers, the custom-header text of
    `create_fully_prepared_email_job` with its Subject and To overrides and
    its sender fields, `build_smtp_from_address`, and the rewriting of a job
    into an automated test send. */
module JobAssembly {
  import opened Common
  import opened Jobs
  import Recipients
  import Placeholders
  import DynamicTags
  import Spintax
  import BatchWorker

  // ---------------------------------------------------------------------
  // Column headers

  function KeyChar(c: char): char {
    if c == ' ' then '_' else LowerChar(c)
  }

  function MapKeyChars(s: string): (r: string)
    ensures |r| == |s|
    ensures forall i :: 0 <= i < |s| ==> r[i] == KeyChar(s[i])
  {
    if s == [] then [] else [KeyChar(s[0])] + MapKeyChars(s[1..])
  }

  /** A data column header cleaned into a placeholder key: stripped, lower
      case, spaces turned into underscores. */
  function NormalizeHeaderKey(h: string): (k: string)
    ensures |k| == |Strip(h)|
    ensures forall i :: 0 <= i < |k| ==> k[i] == (if Strip(h)[i] == ' ' then '_' else LowerChar(Strip(h)[i]))
    ensures ' ' !in k
    ensures forall i :: 0 <= i < |k| ==> !('A' <= k[i] <= 'Z')
    ensures k != [] ==> !IsSpace(k[0]) && !IsSpace(k[|k| - 1])
  {
    MapKeyChars(Strip(h))
  }

  /** Cleaning a key that is already clean changes nothing. */
  lemma NormalizeIdempotent(h: string)
    ensures NormalizeHeaderKey(NormalizeHeaderKey(h)) == NormalizeHeaderKey(h)
  {
    var k := NormalizeHeaderKey(h);
    TrimNoEdges(k, Spaces);
    KeyCharsFixed(k);
  }

  /** A text with no space and no upper-case letter maps to itself. */
  lemma KeyCharsFixed(k: string)
    requires ' ' !in k && forall i :: 0 <= i < |k| ==> !('A' <= k[i] <= 'Z')
    ensures MapKeyChars(k) == k
  {
    var m := MapKeyChars(k);
    forall i | 0 <= i < |k| ensures m[i] == k[i] {
      assert k[i] != ' ';
    }
  }

  /** A header cleans to the empty key exactly when it is blank. */
  lemma NormalizedEmptyIffBlank(h: string)
    ensures NormalizeHeaderKey(h) == [] <==> AllSpace(h)
  {
    StripEmptyIffAllSpace(h);
  }

  /** A cleaned header, written as a placeholder in any letter case and with
      any whitespace inside the braces, is replaced by its column's value. */
  lemma ColumnPlaceholderResolves(h: string, lead: string, word: string, trail: string, value: string)
    requires Placeholders.Blank(lead) && Placeholders.Blank(trail)
    requires Lower(word) == Lower(NormalizeHeaderKey(h))
    ensures Placeholders.Substitute("{{" + lead + word + trail + "}}", NormalizeHeaderKey(h), value) == value
  {
    Placeholders.PlaceholderResolves(lead, word, trail, NormalizeHeaderKey(h), value);
  }

  // ---------------------------------------------------------------------
  // Custom header text

  /** One line of the custom-header text: stripped and cut at its first `:`
      into a stripped name and a stripped value template. */
  function HeaderLine(line: string): Option<(string, string)> {
    var l := Strip(line);
    match IndexOf(l, ':')
    case None => None
    case Some(i) => Some((Strip(l[..i]), Strip(l[i + 1..])))
  }

  /** Exactly the lines without `:` are skipped. */
  lemma HeaderLineSkips(line: string)
    ensures HeaderLine(line).None? <==> ':' !in Strip(line)
  {
  }

  /** The name holds no `:`; name and value are stripped. */
  lemma HeaderLineStripped(line: string)
    requires HeaderLine(line).Some?
    ensures ':' !in HeaderLine(line).value.0
    ensures Strip(HeaderLine(line).value.0) == HeaderLine(line).value.0
    ensures Strip(HeaderLine(line).value.1) == HeaderLine(line).value.1
  {
    var l := Strip(line);
    var i := IndexOf(l, ':').value;
    StripSubset(l[..i]);
    StripIdempotent(l[..i]);
    StripIdempotent(l[i + 1..]);
  }

  /** A stripped line is cut at its first `:` without further stripping. */
  lemma HeaderLineOfStripped(l: string, i: nat)
    requires Stripped(l) && IndexOf(l, ':') == Some(i)
    ensures HeaderLine(l) == Some((Strip(l[..i]), Strip(l[i + 1..])))
  {
    StrippedIsStrip(l);
  }

  lemma JoinedParts(name: string, value: string)
    ensures (name + ":" + value)[..|name|] == name && (name + ":" + value)[|name| + 1..] == value
  {
  }

  lemma JoinedStripped(name: string, value: string)
    requires name != [] && Stripped(name) && Stripped(value)
    ensures Stripped(name + ":" + value)
  {
    var s := name + ":" + value;
    assert s[0] == name[0];
    if value != [] {
      assert s[|s| - 1] == value[|value| - 1];
    }
  }

  /** A line written `name:value` gives back its name and its value; the
      value may itself hold `:`, as only the first one cuts. */
  lemma HeaderLineRoundTrip(name: string, value: string)
    requires name != [] && ':' !in name && Stripped(name) && Stripped(value)
    ensures HeaderLine(name + ":" + value) == Some((name, value))
  {
    var s := name + ":" + value;
    JoinedStripped(name, value);
    IndexOfAfter(name, ':', value);
    HeaderLineOfStripped(s, |name|);
    JoinedParts(name, value);
    StrippedIsStrip(name);
    StrippedIsStrip(value);
  }

  /** The lines of the text that hold a `:`, parsed, in order. */
  function ParsedLines(lines: seq<string>): (r: seq<(string, string)>)
    ensures |r| <= |lines|
  {
    if lines == [] then []
    else
      var rest := ParsedLines(lines[1..]);
      match HeaderLine(lines[0])
      case None => rest
      case Some(h) => [h] + rest
  }

  /** The header lines of the custom-header text, which is stripped first. */
  function HeaderLines(text: string): seq<(string, string)> {
    var t := Strip(text);
    if t == [] then [] else ParsedLines(Split(t, '\n'))
  }

  /** One template through the resolver and then through spintax, on the
      job's boundary cache and the random stream. */
  function ResolvedValue(v: string, data: Dict, ctx: Dict, uuid: string, now: string, pick: nat -> nat,
                         cache: map<string, string>, d: nat): (string, map<string, string>, nat)
  {
    var sc := DynamicTags.Resolve(Some(v), data, ctx, uuid, now, pick, cache, d);
    var (t, d') := Spintax.Spin(sc.out, pick, sc.draws);
    (t, sc.cache, d')
  }

  /** The dictionary the header loop builds onto `acc`: each name is set to
      its resolved value, a later line of the same name overwriting it. */
  function ResolvedHeaders(lines: seq<(string, string)>, data: Dict, ctx: Dict, uuid: string, now: string,
                           pick: nat -> nat, cache: map<string, string>, d: nat, acc: Dict): (Dict, map<string, string>, nat)
    decreases |lines|
  {
    if lines == [] then (acc, cache, d)
    else
      var (v, c, d') := ResolvedValue(lines[0].1, data, ctx, uuid, now, pick, cache, d);
      ResolvedHeaders(lines[1..], data, ctx, uuid, now, pick, c, d', Set(acc, lines[0].0, v))
  }

  function Names(lines: seq<(string, string)>): set<string> {
    set i | 0 <= i < |lines| :: lines[i].0
  }

  /** The dictionary has one key per distinct header name and no other. */
  lemma {:induction false} ResolvedHeadersKeys(lines: seq<(string, string)>, data: Dict, ctx: Dict, uuid: string, now: string,
                                               pick: nat -> nat, cache: map<string, string>, d: nat, acc: Dict)
    ensures Keys(ResolvedHeaders(lines, data, ctx, uuid, now, pick, cache, d, acc).0) == Keys(acc) + Names(lines)
    decreases |lines|
  {
    if lines != [] {
      var (v, c, d') := ResolvedValue(lines[0].1, data, ctx, uuid, now, pick, cache, d);
      ResolvedHeadersKeys(lines[1..], data, ctx, uuid, now, pick, c, d', Set(acc, lines[0].0, v));
      assert Names(lines) == {lines[0].0} + Names(lines[1..]) by {
        forall n | n in Names(lines) ensures n in {lines[0].0} + Names(lines[1..]) {
          var i :| 0 <= i < |lines| && lines[i].0 == n;
          if i > 0 {
            assert lines[1..][i - 1] == lines[i];
          }
        }
        forall n | n in Names(lines[1..]) ensures n in Names(lines) {
          var i :| 0 <= i < |lines[1..]| && lines[1..][i].0 == n;
          assert lines[i + 1] == lines[1..][i];
        }
      }
    }
  }

  /** `d.get(Name, d.get(name))`. */
  function EitherCase(d: Dict, name: string, lower: string): (r: Option<string>)
    ensures r.None? <==> name !in Keys(d) && lower !in Keys(d)
    ensures name in Keys(d) ==> r == Lookup(d, name)
  {
    match Lookup(d, name)
    case Some(v) => Some(v)
    case None => Lookup(d, lower)
  }

  /** The job after its custom headers are stored: a `Subject` header
      replaces the subject, and a `To` header replaces the recipients when
      it names at least one valid address. */
  function WithOverrides(job: Job, headers: Dict, valid: string -> bool): Job {
    var j := job.(allHeaders := headers);
    var j := match EitherCase(headers, "Subject", "subject")
      case None => j
      case Some(s) => j.(subject := s);
    match EitherCase(headers, "To", "to")
    case None => j
    case Some(v) =>
      var rs := Recipients.Parsed(v, valid);
      if rs != [] then j.(recipients := rs) else j
  }

  /** The subject is the `Subject` header when there is one, else unchanged. */
  lemma OverrideSubject(job: Job, headers: Dict, valid: string -> bool)
    ensures var j := WithOverrides(job, headers, valid);
      j.allHeaders == headers
      && j.subject == (match EitherCase(headers, "Subject", "subject") case Some(s) => s case None => job.subject)
  {
  }

  /** A `To` header that names a valid address replaces the recipients with
      its parsed addresses: at least one, none twice ignoring case. Without
      a `To` header the recipients are kept. */
  lemma OverrideRecipients(job: Job, headers: Dict, valid: string -> bool)
    ensures EitherCase(headers, "To", "to").Some? && Recipients.Parsed(EitherCase(headers, "To", "to").value, valid) != [] ==>
      WithOverrides(job, headers, valid).recipients == Recipients.Parsed(EitherCase(headers, "To", "to").value, valid)
    ensures var j := WithOverrides(job, headers, valid);
      j.recipients == job.recipients
      || (j.recipients != [] && (forall i :: 0 <= i < |j.recipients| ==> valid(j.recipients[i]))
          && forall i, k :: 0 <= i < k < |j.recipients| ==> Lower(j.recipients[i]) != Lower(j.recipients[k]))
    ensures EitherCase(headers, "To", "to").None? ==> WithOverrides(job, headers, valid).recipients == job.recipients
  {
    match EitherCase(headers, "To", "to")
    case None =>
    case Some(v) => Recipients.ParsedSound(v, valid);
  }

  /** A `To` header that names no valid address leaves the recipients as
      they were; the source only warns. */
  lemma EmptyToKeepsRecipients(job: Job, headers: Dict, valid: string -> bool)
    requires EitherCase(headers, "To", "to").Some?
    requires Recipients.Parsed(EitherCase(headers, "To", "to").value, valid) == []
    ensures WithOverrides(job, headers, valid).recipients == job.recipients
  {
  }

  /** The custom-header loop: each header line's value resolved with the
      job's boundary cache, then collected by name. */
  method ResolveHeaderLines(cache: DynamicTags.BoundaryCache, lines: seq<(string, string)>, data: Dict, ctx: Dict,
                            uuid: string, now: string, pick: nat -> nat, draws: nat) returns (headers: Dict, draws': nat)
    modifies cache
    ensures (headers, cache.entries, draws') == ResolvedHeaders(lines, data, ctx, uuid, now, pick, old(cache.entries), draws, [])
  {
    ghost var goal := ResolvedHeaders(lines, data, ctx, uuid, now, pick, cache.entries, draws, []);
    headers, draws' := [], draws;
    var i := 0;
    while i < |lines|
      invariant 0 <= i <= |lines|
      invariant ResolvedHeaders(lines[i..], data, ctx, uuid, now, pick, cache.entries, draws', headers) == goal
    {
      var (name, template) := lines[i];
      assert lines[i..][1..] == lines[i + 1..];
      var resolved;
      resolved, draws' := cache.ResolveAll(Some(template), data, ctx, uuid, now, pick, draws');
      var value;
      value, draws' := Spintax.ProcessSpintax(resolved, pick, draws');
      headers := Set(headers, name, value);
      i := i + 1;
    }
  }

  /** The custom-header step of job preparation: nothing happens unless
      custom headers are enabled and their text is not blank. */
  method ApplyCustomHeaders(cache: DynamicTags.BoundaryCache, job: Job, enabled: bool, text: string, data: Dict, ctx: Dict,
                            uuid: string, now: string, pick: nat -> nat, draws: nat, valid: string -> bool)
    returns (job': Job, draws': nat)
    modifies cache
    ensures !enabled || Strip(text) == [] ==> job' == job && draws' == draws && cache.entries == old(cache.entries)
    ensures enabled && Strip(text) != [] ==>
      var res := ResolvedHeaders(HeaderLines(text), data, ctx, uuid, now, pick, old(cache.entries), draws, []);
      job' == WithOverrides(job, res.0, valid) && cache.entries == res.1 && draws' == res.2
  {
    if !enabled {
      return job, draws;
    }
    var trimmed := Strip(text);
    if trimmed == [] {
      return job, draws;
    }
    var headers;
    headers, draws' := ResolveHeaderLines(cache, ParsedLines(Split(trimmed, '\n')), data, ctx, uuid, now, pick, draws);
    job' := job.(allHeaders := headers);
    var subject := EitherCase(headers, "Subject", "subject");
    if subject.Some? {
      job' := job'.(subject := subject.value);
    }
    var to := EitherCase(headers, "To", "to");
    if to.Some? {
      var parsed := Recipients.ParseRecipients(to.value, valid);
      if parsed != [] {
        job' := job'.(recipients := parsed);
      }
    }
  }

  // ---------------------------------------------------------------------
  // Sender fields

  /** `s[i..]` matches `<([^<>]+)>$` and nothing before `i` is a newline, so
      `^(.*?)<([^<>]+)>$` matches with the display name `s[..i]`. */
  predicate AngleAt(s: string, i: nat) {
    i + 2 < |s| && s[i] == '<' && s[|s| - 1] == '>'
    && (forall k :: i < k < |s| - 1 ==> s[k] != '<' && s[k] != '>')
    && forall k :: 0 <= k < i ==> s[k] != '\n'
  }

  /** The lazy match: the first `i` at or after `from` that works. */
  function FindAngle(s: string, from: nat): (r: Option<nat>)
    ensures r.Some? ==> from <= r.value && AngleAt(s, r.value)
    ensures r.None? ==> forall i :: from <= i ==> !AngleAt(s, i)
    decreases |s| - from
  {
    if from >= |s| then None
    else if AngleAt(s, from) then Some(from)
    else FindAngle(s, from + 1)
  }

  /** At most one split works: the name part ends at the last `<`. */
  lemma AngleUnique(s: string, i: nat, j: nat)
    requires AngleAt(s, i) && AngleAt(s, j)
    ensures i == j
  {
  }

  /** The display name in a `From` header: the quoted or bare name before
      `<address>`, or the whole stripped header when it has no such form. */
  function DisplayFromHeader(v: string): string {
    var t := Strip(v);
    match FindAngle(t, 0)
    case Some(i) => StripQuotes(Strip(t[..i]))
    case None => t
  }

  /** Where the parts of `name <email>` sit. */
  lemma NameAddressLayout(name: string, email: string)
    ensures var s := name + " <" + email + ">";
      && |s| == |name| + |email| + 3
      && s[..|name| + 1] == name + " "
      && s[|name| + 1] == '<' && s[|s| - 1] == '>'
      && (forall k :: |name| + 1 < k < |s| - 1 ==> s[k] == email[k - |name| - 2])
      && (forall k :: 0 <= k < |name| ==> s[k] == name[k])
  {
  }

  /** A stripped name followed by one space strips back to the name. */
  lemma StripTrailingSpace(name: string)
    requires name != [] && Stripped(name)
    ensures Strip(name + " ") == name
  {
    var t := name + " ";
    assert t[0] == name[0] && t[|t| - 1] == ' ';
    assert TrimLeft(t, Spaces) == t;
    assert t[..|t| - 1] == name;
    TrimNoEdges(name, Spaces);
    assert TrimRight(t, Spaces) == TrimRight(name, Spaces);
  }

  /** A header written `name <address>` gives its name back. */
  lemma DisplayOfNameAddress(name: string, email: string)
    requires name != [] && !IsSpace(name[0]) && !IsSpace(name[|name| - 1]) && name[0] != '"' && name[|name| - 1] != '"'
    requires '<' !in name && '>' !in name && '\n' !in name
    requires email != [] && '<' !in email && '>' !in email
    ensures DisplayFromHeader(name + " <" + email + ">") == name
  {
    var s := name + " <" + email + ">";
    var i := |name| + 1;
    NameAddressLayout(name, email);
    assert Stripped(s);
    StrippedIsStrip(s);
    assert AngleAt(s, i) by {
      forall k | i < k < |s| - 1 ensures s[k] != '<' && s[k] != '>' {
        assert s[k] in email;
      }
      forall k | 0 <= k < i ensures s[k] != '\n' {
        if k < |name| {
          assert s[k] in name;
        }
      }
    }
    AngleUnique(s, FindAngle(s, 0).value, i);
    StripTrailingSpace(name);
    TrimNoEdges(name, Quotes);
  }

  /** The Apps Script display name: from the `From` header when it is not
      empty, else the resolved From name, else the sender's configured
      name; `kept` is the value the job already holds. */
  function ScriptDisplayName(from: Option<string>, fromName: string, configured: Option<string>, kept: Option<string>): (r: Option<string>)
    ensures from.Some? && from.value != [] ==> r == Some(DisplayFromHeader(from.value))
    ensures (from.None? || from.value == []) && fromName != [] ==> r == Some(fromName)
    ensures (from.None? || from.value == []) && fromName == [] && configured.Some? && configured.value != [] ==> r == configured
    ensures (from.None? || from.value == []) && fromName == [] && (configured.None? || configured.value == []) ==> r == kept
  {
    if from.Some? && from.value != [] then Some(DisplayFromHeader(from.value))
    else if fromName != [] then Some(fromName)
    else if configured.Some? && configured.value != [] then configured
    else kept
  }

  /** The header names the Apps Script transport sets itself, in lower case. */
  const Reserved: set<string> := {"to", "subject", "from", "cc", "bcc"}

  /** The custom headers handed to Apps Script: every entry whose lower-case
      name is not reserved, in order. */
  function ScriptHeaders(d: Dict): (r: Dict)
    ensures Keys(r) == set k | k in Keys(d) && Lower(k) !in Reserved
    ensures forall k, dflt :: Lower(k) !in Reserved ==> Get(r, k, dflt) == Get(d, k, dflt)
  {
    if d == [] then []
    else
      var rest := ScriptHeaders(d[1..]);
      if Lower(d[0].0) in Reserved then rest else [d[0]] + rest
  }

  /** The sender configuration fields `build_smtp_from_address` reads;
      an absent field is the empty string. */
  datatype SenderConfig = SenderConfig(username: string, fromAddress: string, displayName: Option<string>)

  const FallbackEmail: string := "sender@mailer.app"

  predicate IsAngle(c: char) { c == '<' || c == '>' }

  /** The first `<` or `>` at or after `j`. */
  function NextAngle(s: string, j: nat): (r: Option<nat>)
    requires j <= |s|
    ensures r.Some? ==> j <= r.value < |s| && IsAngle(s[r.value])
    ensures r.Some? ==> forall m :: j <= m < r.value ==> !IsAngle(s[m])
    ensures r.None? ==> forall m :: j <= m < |s| ==> !IsAngle(s[m])
    decreases |s| - j
  {
    if j == |s| then None
    else if IsAngle(s[j]) then Some(j)
    else NextAngle(s, j + 1)
  }

  /** `s[p..e]` matches `<([^<>]+)>`. */
  predicate BracketAt(s: string, p: nat, e: nat) {
    p + 3 <= e <= |s| && s[p] == '<' && s[e - 1] == '>'
    && forall k :: p < k < e - 1 ==> !IsAngle(s[k])
  }

  /** `re.search(r'<([^<>]+)>', s)` from `from`: the leftmost bracketed part. */
  function FindBracketed(s: string, from: nat): (r: Option<(nat, nat)>)
    ensures r.Some? ==> from <= r.value.0 && BracketAt(s, r.value.0, r.value.1)
    ensures r.Some? ==> forall p, e :: from <= p < r.value.0 ==> !BracketAt(s, p, e)
    ensures r.None? ==> forall p, e :: from <= p ==> !BracketAt(s, p, e)
    decreases |s| - from
  {
    if from >= |s| then None
    else
      var close := NextAngle(s, from + 1);
      if s[from] == '<' && close.Some? && s[close.value] == '>' && close.value > from + 1 then Some((from, close.value + 1))
      else FindBracketed(s, from + 1)
  }

  /** The address the configuration names before the fallback applies: the
      configured default From (its bracketed address, or itself when it
      holds `@`), else the username. */
  function ConfiguredEmail(cfg: SenderConfig): string {
    EmailChoice(Strip(cfg.fromAddress), Strip(cfg.username))
  }

  /** The choice `ConfiguredEmail` makes, given the stripped default From
      `sf` and the stripped username `user`. */
  function EmailChoice(sf: string, user: string): string {
    var found := FindBracketed(sf, 0);
    if sf == [] then user
    else if found.Some? then Strip(sf[found.value.0 + 1..found.value.1 - 1])
    else if '@' in sf then sf else user
  }

  lemma ConfiguredBracketed(cfg: SenderConfig, p: nat, q: nat)
    requires Strip(cfg.fromAddress) != [] && FindBracketed(Strip(cfg.fromAddress), 0) == Some((p, q))
    ensures ConfiguredEmail(cfg) == Strip(Strip(cfg.fromAddress)[p + 1..q - 1])
  {
    var sf := Strip(cfg.fromAddress);
    assert ConfiguredEmail(cfg) == EmailChoice(sf, Strip(cfg.username));
    var found := FindBracketed(sf, 0);
    assert found.Some? && found.value == (p, q);
  }

  /** The address part of the SMTP `From`: the configured address, and the
      fixed fallback when that holds no `@`. */
  function SmtpEmail(cfg: SenderConfig): (e: string)
    ensures '@' in e
    ensures '@' in ConfiguredEmail(cfg) ==> e == ConfiguredEmail(cfg)
    ensures '@' !in ConfiguredEmail(cfg) ==> e == FallbackEmail
  {
    var e := ConfiguredEmail(cfg);
    if e == [] || '@' !in e then (assert FallbackEmail[6] == '@'; FallbackEmail) else e
  }

  /** A default From that is a plain address holding `@` is the address used. */
  lemma PlainDefaultFromUsed(cfg: SenderConfig)
    requires '@' in Strip(cfg.fromAddress) && '<' !in Strip(cfg.fromAddress)
    ensures SmtpEmail(cfg) == Strip(cfg.fromAddress)
  {
    var sf := Strip(cfg.fromAddress);
    assert forall k :: 0 <= k < |sf| ==> sf[k] in sf;
  }

  /** Where the parts of `name<email>` sit: its only angle brackets are the
      two around the address. */
  lemma BracketLayout(name: string, email: string)
    requires '<' !in name && '>' !in name && '<' !in email && '>' !in email
    ensures var s := name + "<" + email + ">";
      && |s| == |name| + |email| + 2
      && s[|name|] == '<' && s[|s| - 1] == '>'
      && s[|name| + 1..|s| - 1] == email
      && (forall k :: 0 <= k < |s| && IsAngle(s[k]) ==> k == |name| || k == |s| - 1)
  {
    var s := name + "<" + email + ">";
    forall k | 0 <= k < |name| ensures !IsAngle(s[k]) {
      assert s[k] == name[k] && name[k] in name;
    }
    forall k | |name| < k < |s| - 1 ensures !IsAngle(s[k]) {
      assert s[k] == email[k - |name| - 1] && email[k - |name| - 1] in email;
    }
  }

  /** The search finds the brackets around the address of `name<email>`. */
  lemma BracketFound(name: string, email: string)
    requires '<' !in name && '>' !in name && '<' !in email && '>' !in email && email != []
    ensures var s := name + "<" + email + ">";
      FindBracketed(s, 0) == Some((|name|, |s|)) && s[|name| + 1..|s| - 1] == email
  {
    var s := name + "<" + email + ">";
    BracketLayout(name, email);
    assert BracketAt(s, |name|, |s|);
  }

  /** A default From written `name<address>`, already stripped, yields that address. */
  lemma BracketedDefaultFromUsed(cfg: SenderConfig, name: string, email: string)
    requires cfg.fromAddress == name + "<" + email + ">" && Strip(cfg.fromAddress) == cfg.fromAddress
    requires '<' !in name && '>' !in name && '@' in email && Strip(email) == email && '<' !in email && '>' !in email
    ensures SmtpEmail(cfg) == email
  {
    assert email != [];
    BracketFound(name, email);
    ConfiguredBracketed(cfg, |name|, |cfg.fromAddress|);
  }

  /** With no default From, a username holding `@` is the address used. */
  lemma UsernameUsed(cfg: SenderConfig)
    requires Strip(cfg.fromAddress) == [] && '@' in Strip(cfg.username)
    ensures SmtpEmail(cfg) == Strip(cfg.username)
  {
  }

  /** The bracketed part of a text without `@` holds none either. */
  lemma NoAtInBracket(sf: string, p: nat, q: nat)
    requires '@' !in sf && FindBracketed(sf, 0) == Some((p, q))
    ensures '@' !in Strip(sf[p + 1..q - 1])
  {
    StripSubset(sf[p + 1..q - 1]);
    assert forall c :: c in sf[p + 1..q - 1] ==> c in sf;
  }

  /** With `@` in neither field, the fallback address is used. */
  lemma FallbackUsed(cfg: SenderConfig)
    requires '@' !in cfg.username && '@' !in cfg.fromAddress
    ensures SmtpEmail(cfg) == FallbackEmail
  {
    var sf := Strip(cfg.fromAddress);
    var user := Strip(cfg.username);
    StripSubset(cfg.username);
    StripSubset(cfg.fromAddress);
    var found := FindBracketed(sf, 0);
    if sf != [] && found.Some? {
      NoAtInBracket(sf, found.value.0, found.value.1);
    }
    assert '@' !in EmailChoice(sf, user);
    assert ConfiguredEmail(cfg) == EmailChoice(sf, user);
  }

  /** The name before the first `<` of the default From, when no newline
      comes before it: `re.match(r'^(.*?)<', s)`, stripped and unquoted. */
  function DefaultFromName(sf: string): (r: Option<string>) {
    match IndexOf(sf, '<')
    case None => None
    case Some(i) => if '\n' in sf[..i] then None else Some(StripQuotes(Strip(sf[..i])))
  }

  function AddressEmail(a: Address): string {
    match a
    case Formatted(_, e) => e
    case Bare(e) => e
  }

  /** `build_smtp_from_address`: the display name from the message, else
      the name part of the default From, else the bare address. */
  function BuildSmtpFromAddress(displayName: string, cfg: SenderConfig): (r: Address)
    ensures AddressEmail(r) == SmtpEmail(cfg) && '@' in AddressEmail(r)
    ensures displayName != [] ==> r == Formatted(displayName, SmtpEmail(cfg))
    ensures r.Formatted? ==> r.name != []
    ensures displayName == [] && DefaultFromName(Strip(cfg.fromAddress)).Some? && DefaultFromName(Strip(cfg.fromAddress)).value != []
      ==> r == Formatted(DefaultFromName(Strip(cfg.fromAddress)).value, SmtpEmail(cfg))
    ensures r.Bare? <==> displayName == [] && (DefaultFromName(Strip(cfg.fromAddress)).None? || DefaultFromName(Strip(cfg.fromAddress)).value == [])
  {
    var email := SmtpEmail(cfg);
    var sf := Strip(cfg.fromAddress);
    if displayName != [] then Formatted(displayName, email)
    else match DefaultFromName(sf)
      case Some(n) => if n != [] then Formatted(n, email) else Bare(email)
      case None => Bare(email)
  }

  /** The sender fields by job type: Apps Script jobs get a display name
      and the filtered headers, SMTP jobs a `From` value, which a non-empty
      `From` header supplies verbatim. */
  function FinalizeSender(job: Job, fromName: string, cfg: SenderConfig): (r: Job)
    ensures r.(senderDisplayName := job.senderDisplayName, scriptHeaders := job.scriptHeaders, fromAddress := job.fromAddress) == job
    ensures r.kind == job.kind
    ensures r.kind.AppsScript? ==> r.scriptHeaders == ScriptHeaders(job.allHeaders) && r.fromAddress == job.fromAddress
    ensures r.kind.AppsScript? ==>
      r.senderDisplayName == ScriptDisplayName(EitherCase(job.allHeaders, "From", "from"), fromName, cfg.displayName, job.senderDisplayName)
    ensures r.kind.GenericSmtp? ==> r.senderDisplayName == job.senderDisplayName && r.scriptHeaders == job.scriptHeaders
    ensures r.kind.GenericSmtp? && EitherCase(job.allHeaders, "From", "from").Some? && EitherCase(job.allHeaders, "From", "from").value != []
      ==> r.fromAddress == Some(Bare(EitherCase(job.allHeaders, "From", "from").value))
    ensures r.kind.GenericSmtp? && (EitherCase(job.allHeaders, "From", "from").None? || EitherCase(job.allHeaders, "From", "from").value == [])
      ==> r.fromAddress == Some(BuildSmtpFromAddress(fromName, cfg)) && '@' in AddressEmail(r.fromAddress.value)
    ensures r.kind.OtherKind? ==> r == job
  {
    var from := EitherCase(job.allHeaders, "From", "from");
    match job.kind
    case AppsScript =>
      job.(senderDisplayName := ScriptDisplayName(from, fromName, cfg.displayName, job.senderDisplayName),
           scriptHeaders := ScriptHeaders(job.allHeaders))
    case GenericSmtp =>
      if from.Some? && from.value != [] then job.(fromAddress := Some(Bare(from.value)))
      else job.(fromAddress := Some(BuildSmtpFromAddress(fromName, cfg)))
    case OtherKind(_) => job
  }

  // ---------------------------------------------------------------------
  // Automated test sends

  // The literals below are written in short pieces, which the verifier
  // handles far more cheaply than one long literal.

  function HtmlBanner(id8: string): string {
    "<p style='color:red; " + "font-weight:bold; " + "border:1px " + "dashed red; " + "padding:5px;'>"
    + "--- THIS IS " + "AN AUTOMATED " + "TEST EMAIL " + "(Based on " + "original " + "Job ID: "
    + id8 + ") ---" + "</p><hr><br>"
  }

  function PlainBanner(id8: string): string {
    "--- THIS IS " + "AN AUTOMATED " + "TEST EMAIL " + "(Based on " + "original " + "Job ID: "
    + id8 + ") ---\n" + "----------------" + "-----------------" + "\n\n"
  }

  function DefaultTestMessage(id: string): string {
    "This is a " + "test email " + "message based " + "on the content " + "and configuration " + "of main email " + "job ID: " + id
    + ". If you " + "see this, " + "the sending " + "mechanism is " + "likely working."
  }

  function SubjectPrefix(id8: string): string {
    "[AUTO-TEST MAIL - Job " + id8 + "] "
  }

  function OrEmpty(b: Option<string>): string {
    if b.Some? then b.value else ""
  }

  /** The header dictionary of a test send: `To` forced, no `Cc`/`Bcc`. */
  function TestHeaders(h: Dict, target: string): (r: Dict)
    ensures forall dflt :: Get(r, "To", dflt) == target
    ensures "Cc" !in Keys(r) && "cc" !in Keys(r) && "Bcc" !in Keys(r) && "bcc" !in Keys(r)
    ensures forall k, dflt :: k != "To" && k != "Cc" && k != "cc" && k != "Bcc" && k != "bcc" ==> Get(r, k, dflt) == Get(h, k, dflt)
  {
    Remove(Remove(Remove(Remove(Set(h, "To", target), "Cc"), "cc"), "Bcc"), "bcc")
  }

  /** The bodies of a test send: each body after its banner, and when both
      are blank once their banner is removed, the default message appended
      to each. */
  function TestBodies(html: string, plain: string, hb: string, pb: string, msg: string): (r: (string, string))
    requires hb != [] && pb != []
    ensures StartsWith(r.0, html) && StartsWith(r.1, plain)
  {
    var blank := Strip(ReplaceAll(html, hb, "")) == [] && Strip(ReplaceAll(plain, pb, "")) == [];
    if blank then (html + "<p>" + msg + "</p>", plain + msg) else (html, plain)
  }

  /** Removing every copy of a text from that text alone leaves nothing. */
  lemma ReplaceAllSelf(b: string)
    requires b != []
    ensures ReplaceAll(b, b, "") == ""
  {
    assert OccursAt(b, b, 0);
    assert FindFrom(b, b, 0) == Some(0);
    assert b[|b|..] == [];
    assert FindFrom([], b, 0).None?;
  }

  /** Bodies that are their banners alone get the default message. */
  lemma BannersAloneGetDefault(hb: string, pb: string, msg: string)
    requires hb != [] && pb != []
    ensures TestBodies(hb, pb, hb, pb, msg) == (hb + "<p>" + msg + "</p>", pb + msg)
  {
    ReplaceAllSelf(hb);
    ReplaceAllSelf(pb);
  }

  /** The test job built from a prepared job: a new `TEST_` id from the
      fresh `uuid` text, the one target recipient, banners in both bodies and
      a default message when both are otherwise blank. The limiter is
      dropped; the batch worker attaches one again by nickname. */
  function TestPayload(base: Job, target: string, uuid: string): (t: Job)
    ensures IsTestJob(t)
    ensures t.recipients == [target]
    ensures forall dflt :: Get(t.allHeaders, "To", dflt) == target
    ensures "Cc" !in Keys(t.allHeaders) && "cc" !in Keys(t.allHeaders) && "Bcc" !in Keys(t.allHeaders) && "bcc" !in Keys(t.allHeaders)
    ensures t.kind.AppsScript? ==> forall k :: k in Keys(t.scriptHeaders) ==> Lower(k) !in Reserved
    ensures !t.kind.AppsScript? ==> t.scriptHeaders == base.scriptHeaders
    ensures t.kind == base.kind && t.nickname == base.nickname && t.limiter.None?
    ensures StartsWith(t.subject, SubjectPrefix(Take(base.jobId, 8)))
    ensures t.subject[|SubjectPrefix(Take(base.jobId, 8))|..] == base.subject
    ensures t.htmlBody.Some? && StartsWith(t.htmlBody.value, HtmlBanner(Take(base.jobId, 8)) + OrEmpty(base.htmlBody))
    ensures t.plainBody.Some? && StartsWith(t.plainBody.value, PlainBanner(Take(base.jobId, 8)) + OrEmpty(base.plainBody))
  {
    var id8 := Take(base.jobId, 8);
    var hb := HtmlBanner(id8);
    var pb := PlainBanner(id8);
    assert |hb| > 0 && |pb| > 0;
    var bodies := TestBodies(hb + OrEmpty(base.htmlBody), pb + OrEmpty(base.plainBody), hb, pb, DefaultTestMessage(base.jobId));
    var prefix := SubjectPrefix(id8);
    assert (prefix + base.subject)[|prefix|..] == base.subject;
    assert StartsWith(TestPrefix + Take(uuid, 10), TestPrefix);
    base.(jobId := TestPrefix + Take(uuid, 10),
          recipients := [target],
          allHeaders := TestHeaders(base.allHeaders, target),
          scriptHeaders := if base.kind.AppsScript? then ScriptHeaders(base.scriptHeaders) else base.scriptHeaders,
          subject := prefix + base.subject,
          htmlBody := Some(bodies.0),
          plainBody := Some(bodies.1),
          limiter := None)
  }

  /** A job with both bodies empty or absent becomes a test send that
      carries the default message after each banner. */
  lemma BlankBodiesGetDefault(base: Job, target: string, uuid: string)
    requires OrEmpty(base.htmlBody) == [] && OrEmpty(base.plainBody) == []
    ensures var id8 := Take(base.jobId, 8);
      var t := TestPayload(base, target, uuid);
      t.htmlBody == Some(HtmlBanner(id8) + "<p>" + DefaultTestMessage(base.jobId) + "</p>")
      && t.plainBody == Some(PlainBanner(id8) + DefaultTestMessage(base.jobId))
  {
    var id8 := Take(base.jobId, 8);
    var hb := HtmlBanner(id8);
    var pb := PlainBanner(id8);
    assert hb + OrEmpty(base.htmlBody) == hb;
    assert pb + OrEmpty(base.plainBody) == pb;
    BannersAloneGetDefault(hb, pb, DefaultTestMessage(base.jobId));
  }

  /** Test sends never raise the primary-success signal, whatever their outcome. */
  lemma TestSendsNotPrimary(cs: seq<BatchWorker.Drained>, bases: seq<Job>, target: string, uuid: string)
    requires |bases| == |cs|
    requires forall j :: 0 <= j < |cs| ==> cs[j].job == TestPayload(bases[j], target, uuid)
    ensures BatchWorker.PrimaryEvents(cs) == []
  {
    BatchWorker.PrimaryEventsExact(cs);
  }
}

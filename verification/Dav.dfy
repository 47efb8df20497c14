/**
 DAV requests: bounded redirects and authentication retries, Digest nonce
 counts, quoted header values (packages/dav/src/index.ts).
 */
module Dav {
  import opened JsString
  import opened Results

  // ---------- quoted header values ----------

  /** `quote`: two passes, then the quotes around it. */
  function Quote(v: Str): Str {
    [DQUOTE] + ReplaceAll(ReplaceAll(v, [BACKSLASH], [BACKSLASH, BACKSLASH]), [DQUOTE], [BACKSLASH, DQUOTE]) + [DQUOTE]
  }

  /** What `.` does not match. */
  predicate EndsLine(c: Unit) {
    c == LF || c == CR || c == LINE_SEPARATOR || c == PARAGRAPH_SEPARATOR
  }

  /** Replacing every backslash pair by its second unit. */
  function Unescaped(s: Str): Str {
    if s == [] then []
    else if s[0] == BACKSLASH && |s| >= 2 && !EndsLine(s[1]) then [s[1]] + Unescaped(s[2..])
    else [s[0]] + Unescaped(s[1..])
  }

  /** `unquote`; slicing off the last unit of a lone quote leaves nothing. */
  function Unquote(s: Str): Str {
    if s == [] || s[0] != DQUOTE then s
    else if |s| == 1 then []
    else Unescaped(s[1..|s| - 1])
  }

  /** The body of a quoted value in one pass. */
  function Body(v: Str): Str {
    if v == [] then []
    else (if v[0] == BACKSLASH || v[0] == DQUOTE then [BACKSLASH, v[0]] else [v[0]]) + Body(v[1..])
  }

  lemma {:induction false} TwoPassesAreOne(v: Str)
    ensures ReplaceAll(ReplaceAll(v, [BACKSLASH], [BACKSLASH, BACKSLASH]), [DQUOTE], [BACKSLASH, DQUOTE]) == Body(v)
  {
    if v != [] {
      TwoPassesAreOne(v[1..]);
      ReplaceUnitStep(v, BACKSLASH, [BACKSLASH, BACKSLASH]);
      var head := if v[0] == BACKSLASH then [BACKSLASH, BACKSLASH] else [v[0]];
      var rest := ReplaceAll(v[1..], [BACKSLASH], [BACKSLASH, BACKSLASH]);
      ReplaceUnitConcat(head, rest, DQUOTE, [BACKSLASH, DQUOTE]);
      HeadReplaced(v[0]);
    }
  }

  lemma HeadReplaced(c: Unit)
    ensures ReplaceAll(if c == BACKSLASH then [BACKSLASH, BACKSLASH] else [c], [DQUOTE], [BACKSLASH, DQUOTE])
         == if c == BACKSLASH || c == DQUOTE then [BACKSLASH, c] else [c]
  {
    if c == DQUOTE {
      ReplaceUnitStep([c], DQUOTE, [BACKSLASH, DQUOTE]);
      assert [c][1..] == [];
    } else if c == BACKSLASH {
      ReplaceAbsentUnit([BACKSLASH, BACKSLASH], DQUOTE, [BACKSLASH, DQUOTE]);
    } else {
      ReplaceAbsentUnit([c], DQUOTE, [BACKSLASH, DQUOTE]);
    }
  }

  lemma {:induction false} UnescapedBody(v: Str)
    ensures Unescaped(Body(v)) == v
  {
    if v != [] {
      UnescapedBody(v[1..]);
      var b := Body(v);
      if v[0] == BACKSLASH || v[0] == DQUOTE {
        assert b[0] == BACKSLASH && b[1] == v[0] && b[2..] == Body(v[1..]);
      } else {
        assert b[0] == v[0] && b[1..] == Body(v[1..]);
      }
      HeadAndTail(v);
    }
  }

  /** Whatever the value, line ends included, unquoting gives it back. */
  lemma QuoteRoundTrip(v: Str)
    ensures Unquote(Quote(v)) == v
  {
    TwoPassesAreOne(v);
    UnescapedBody(v);
    assert Quote(v)[1..|Quote(v)| - 1] == Body(v);
  }

  /** How long the quoted string is whose opening quote has been read: up to the first bare quote. */
  function QuotedLength(s: Str): Option<nat> {
    if s == [] then None
    else if s[0] == DQUOTE then Some(1)
    else if s[0] == BACKSLASH then
      if |s| >= 2 && !EndsLine(s[1]) then Longer(QuotedLength(s[2..]), 2) else None
    else Longer(QuotedLength(s[1..]), 1)
  }

  function Longer(n: Option<nat>, more: nat): Option<nat> {
    if n.Some? then Some(n.value + more) else None
  }

  /** A quoted value ends exactly where it should, whatever follows it in the header. */
  lemma {:induction false} QuotedEnds(v: Str, rest: Str)
    ensures QuotedLength(Body(v) + [DQUOTE] + rest) == Some(|Body(v)| + 1)
  {
    var s := Body(v) + [DQUOTE] + rest;
    if v != [] {
      QuotedEnds(v[1..], rest);
      var more := Body(v[1..]) + [DQUOTE] + rest;
      if v[0] == BACKSLASH || v[0] == DQUOTE {
        assert s[0] == BACKSLASH && s[1] == v[0] && s[2..] == more;
      } else {
        assert s[0] == v[0] && s[1..] == more;
      }
    }
  }

  // ---------- the client ----------

  datatype Url = Url(protocol: Str, origin: Str, path: Str)
  datatype Challenge = Challenge(realm: Str, nonce: Str, algorithm: Str, qop: bool, opaqueValue: Option<Str>)
  datatype Authentication = Password(username: Str, password: Str) | Token(token: Str)
  datatype Scheme = Unset | UseBasic | UseDigest

  /** The authorization header of one fetch; `epoch` counts adopted challenges. */
  datatype Header = NoHeader | Bearer | Basic | Digest(epoch: nat, challenge: Challenge, nonceCount: nat)
  datatype Fetch = Fetch(url: Url, verb: Str, header: Header)

  /** A response, its `www-authenticate` header already taken apart. */
  datatype Response = Response(status: nat, location: Option<Str>, challenge: Option<Challenge>, basic: bool,
      stale: bool)
  datatype Answer = Failed | Answered(response: Response)

  /** The world: how the n-th fetch ends and what a location resolves to. */
  datatype Net = Net(answer: nat -> Answer, resolve: (Str, Url) -> Option<Url>)

  datatype Config = Config(service: Url, authentication: Authentication, net: Net)

  /** The client's fields, with everything it ever sent and adopted. */
  datatype Client = Client(scheme: Scheme, challenge: Option<Challenge>, nonceCount: nat, sent: seq<Fetch>,
      adopted: seq<Challenge>)

  const FRESH: Client := Client(Unset, None, 0, [], [])

  const MAX_REDIRECTS := 5
  const MAX_AUTH_ATTEMPTS := 2

  /** `authorization` with the fetch that follows it. */
  function Sent(c: Client, authentication: Authentication, url: Url, verb: Str): Client {
    var header :=
      if authentication.Token? then Bearer
      else if c.scheme.UseBasic? then Basic
      else if c.scheme.UseDigest? && c.challenge.Some? then Digest(|c.adopted|, c.challenge.value, c.nonceCount + 1)
      else NoHeader;
    c.(sent := c.sent + [Fetch(url, verb, header)],
       nonceCount := if header.Digest? then c.nonceCount + 1 else c.nonceCount)
  }

  function Adopted(c: Client, challenge: Challenge): Client {
    c.(scheme := UseDigest, challenge := Some(challenge), nonceCount := 0, adopted := c.adopted + [challenge])
  }

  predicate Allowed(config: Config, url: Url) {
    url.protocol == config.service.protocol && url.origin == config.service.origin
  }

  predicate Writes(verb: Str) {
    Upper(verb) in {L("POST"), L("PUT"), L("PATCH"), L("DELETE")}
  }

  predicate IsRedirect(status: nat) {
    300 <= status < 400
  }

  /** What `request` does with the answer to a fetch. */
  datatype Move =
    | Return(response: Response)
    | Fail(message: string)
    | Follow(url: Url)
    | RetryDigest(challenge: Challenge)
    | RetryBasic

  function Decide(config: Config, url: Url, verb: Str, redirects: nat, attempts: nat, answer: Answer): Move {
    if answer.Failed? then Fail("connection-failed")
    else
      var r := answer.response;
      if IsRedirect(r.status) then
        if redirects >= MAX_REDIRECTS then Fail("too-many-redirects")
        else if r.location.None? || r.location.value == [] then Fail("invalid-response")
        else if Writes(verb) && r.status != 307 && r.status != 308 then Fail("unsafe-redirect")
        else
          var target := config.net.resolve(r.location.value, url);
          if target.Some? then Follow(target.value) else Fail("Invalid URL")
      else if r.status == 401 && config.authentication.Password? && attempts < MAX_AUTH_ATTEMPTS then
        if r.challenge.Some? then
          if attempts > 0 && !r.stale then Fail("authentication-failed") else RetryDigest(r.challenge.value)
        else if r.basic && attempts == 0 then RetryBasic
        else Fail(if attempts > 0 then "authentication-failed" else "unsupported-authentication")
      else if r.status == 401 || r.status == 403 then Fail("authentication-failed")
      else Return(r)
  }

  datatype Outcome = Outcome(client: Client, result: Result<Response>)

  /** `request` */
  function Requested(config: Config, c: Client, url: Url, verb: Str, redirects: nat, attempts: nat): Outcome
    requires redirects <= MAX_REDIRECTS && attempts <= MAX_AUTH_ATTEMPTS
    decreases MAX_REDIRECTS - redirects + (MAX_AUTH_ATTEMPTS - attempts)
  {
    if url.protocol != config.service.protocol then Outcome(c, Err("https-required"))
    else if url.origin != config.service.origin then Outcome(c, Err("unsafe-redirect"))
    else
      var s := Sent(c, config.authentication, url, verb);
      match Decide(config, url, verb, redirects, attempts, config.net.answer(|c.sent|))
      case Return(r) => Outcome(s, Ok(r))
      case Fail(message) => Outcome(s, Err(message))
      case Follow(target) => Requested(config, s, target, verb, redirects + 1, attempts)
      case RetryDigest(challenge) => Requested(config, Adopted(s, challenge), url, verb, redirects, attempts + 1)
      case RetryBasic => Requested(config, s.(scheme := UseBasic), url, verb, redirects, attempts + 1)
  }

  // ---------- what one request may send ----------

  /** The part of the log a request adds. */
  predicate Extends(c: Client, next: Client) {
    |c.sent| <= |next.sent| && next.sent[..|c.sent|] == c.sent
  }

  lemma {:induction false} RequestExtends(config: Config, c: Client, url: Url, verb: Str, redirects: nat, attempts: nat)
    requires redirects <= MAX_REDIRECTS && attempts <= MAX_AUTH_ATTEMPTS
    ensures var end := Requested(config, c, url, verb, redirects, attempts).client;
      && Extends(c, end)
      && |end.sent| - |c.sent| <= 1 + (MAX_REDIRECTS - redirects) + (MAX_AUTH_ATTEMPTS - attempts)
    decreases MAX_REDIRECTS - redirects + (MAX_AUTH_ATTEMPTS - attempts)
  {
    if Allowed(config, url) {
      var s := Sent(c, config.authentication, url, verb);
      match Decide(config, url, verb, redirects, attempts, config.net.answer(|c.sent|))
      case Follow(target) => RequestExtends(config, s, target, verb, redirects + 1, attempts);
      case RetryDigest(challenge) => RequestExtends(config, Adopted(s, challenge), url, verb, redirects, attempts + 1);
      case RetryBasic => RequestExtends(config, s.(scheme := UseBasic), url, verb, redirects, attempts + 1);
      case _ =>
    }
  }

  /** The next fetch goes where the redirect points; a write is only repeated for the statuses that allow it. */
  predicate Redirected(config: Config, r: Response, verb: Str, here: Url, next: Url) {
    && IsRedirect(r.status) && r.location.Some? && r.location.value != []
    && config.net.resolve(r.location.value, here) == Some(next)
    && (Writes(verb) ==> r.status in {307, 308})
  }

  /** The next fetch answers a challenge at the same place. */
  predicate Challenged(config: Config, r: Response, here: Url, next: Url) {
    && r.status == 401 && config.authentication.Password? && next == here && (r.challenge.Some? || r.basic)
  }

  /** A fetch of this request: to the service, with the caller's method, repeated for one of the two reasons only. */
  predicate FetchFits(config: Config, verb: Str, sent: seq<Fetch>, i: nat)
    requires i < |sent|
  {
    && Allowed(config, sent[i].url) && sent[i].verb == verb
    && (i + 1 < |sent| ==>
          && config.net.answer(i).Answered?
          && var r := config.net.answer(i).response;
             Redirected(config, r, verb, sent[i].url, sent[i + 1].url)
               || Challenged(config, r, sent[i].url, sent[i + 1].url))
  }

  /** The first fetch of a request, if it makes any, is the one asked for. */
  lemma RequestStarts(config: Config, c: Client, url: Url, verb: Str, redirects: nat, attempts: nat)
    requires redirects <= MAX_REDIRECTS && attempts <= MAX_AUTH_ATTEMPTS
    ensures var end := Requested(config, c, url, verb, redirects, attempts).client;
      |end.sent| > |c.sent| ==> Allowed(config, url) && end.sent[|c.sent|].url == url && end.sent[|c.sent|].verb == verb
  {
    if Allowed(config, url) {
      var s := Sent(c, config.authentication, url, verb);
      var end := Requested(config, c, url, verb, redirects, attempts).client;
      match Decide(config, url, verb, redirects, attempts, config.net.answer(|c.sent|))
      case Follow(target) =>
        RequestExtends(config, s, target, verb, redirects + 1, attempts);
        assert end.sent[|c.sent|] == end.sent[..|s.sent|][|c.sent|];
      case RetryDigest(challenge) =>
        RequestExtends(config, Adopted(s, challenge), url, verb, redirects, attempts + 1);
        assert end.sent[|c.sent|] == end.sent[..|s.sent|][|c.sent|];
      case RetryBasic =>
        RequestExtends(config, s.(scheme := UseBasic), url, verb, redirects, attempts + 1);
        assert end.sent[|c.sent|] == end.sent[..|s.sent|][|c.sent|];
      case _ =>
    }
  }

  /** What a request goes on with: the target of a redirect it may follow, or the same place after a challenge. */
  lemma DecideFits(config: Config, url: Url, verb: Str, redirects: nat, attempts: nat, answer: Answer)
    ensures var move := Decide(config, url, verb, redirects, attempts, answer);
      && (move.Follow? ==> answer.Answered? && Redirected(config, answer.response, verb, url, move.url))
      && (move.RetryDigest? || move.RetryBasic? ==> answer.Answered? && Challenged(config, answer.response, url, url))
  {
  }

  /** A fetch fits when the log goes on from it for a reason of its answer. */
  lemma SentFits(config: Config, c: Client, url: Url, verb: Str, end: Client, next: Url)
    requires Allowed(config, url) && Extends(Sent(c, config.authentication, url, verb), end)
    requires |end.sent| > |c.sent| + 1 ==>
      && end.sent[|c.sent| + 1].url == next && config.net.answer(|c.sent|).Answered?
      && var r := config.net.answer(|c.sent|).response;
        Redirected(config, r, verb, url, next) || Challenged(config, r, url, next)
    ensures |c.sent| < |end.sent| && FetchFits(config, verb, end.sent, |c.sent|)
  {
    var s := Sent(c, config.authentication, url, verb);
    assert end.sent[|c.sent|] == end.sent[..|s.sent|][|c.sent|] == s.sent[|c.sent|];
  }

  /** The first fetch of a request fits, whatever follows it. */
  lemma FirstFits(config: Config, c: Client, url: Url, verb: Str, redirects: nat, attempts: nat)
    requires redirects <= MAX_REDIRECTS && attempts <= MAX_AUTH_ATTEMPTS
    requires |c.sent| < |Requested(config, c, url, verb, redirects, attempts).client.sent|
    ensures FetchFits(config, verb, Requested(config, c, url, verb, redirects, attempts).client.sent, |c.sent|)
  {
    var s := Sent(c, config.authentication, url, verb);
    DecideFits(config, url, verb, redirects, attempts, config.net.answer(|c.sent|));
    match Decide(config, url, verb, redirects, attempts, config.net.answer(|c.sent|))
    case Follow(target) => GoesOn(config, c, url, verb, s, target, redirects + 1, attempts);
    case RetryDigest(challenge) => GoesOn(config, c, url, verb, Adopted(s, challenge), url, redirects, attempts + 1);
    case RetryBasic => GoesOn(config, c, url, verb, s.(scheme := UseBasic), url, redirects, attempts + 1);
    case _ => SentFits(config, c, url, verb, s, url);
  }

  lemma GoesOn(config: Config, c: Client, url: Url, verb: Str, s: Client, next: Url, redirects: nat, attempts: nat)
    requires redirects <= MAX_REDIRECTS && attempts <= MAX_AUTH_ATTEMPTS && Allowed(config, url)
    requires s.sent == Sent(c, config.authentication, url, verb).sent && config.net.answer(|c.sent|).Answered?
    requires var r := config.net.answer(|c.sent|).response;
      Redirected(config, r, verb, url, next) || Challenged(config, r, url, next)
    ensures var end := Requested(config, s, next, verb, redirects, attempts).client;
      |c.sent| < |end.sent| && FetchFits(config, verb, end.sent, |c.sent|)
  {
    RequestStarts(config, s, next, verb, redirects, attempts);
    RequestExtends(config, s, next, verb, redirects, attempts);
    SentFits(config, c, url, verb, Requested(config, s, next, verb, redirects, attempts).client, next);
  }

  lemma {:induction false} RequestFits(config: Config, c: Client, url: Url, verb: Str, redirects: nat, attempts: nat,
      i: nat)
    requires redirects <= MAX_REDIRECTS && attempts <= MAX_AUTH_ATTEMPTS
    requires |c.sent| <= i < |Requested(config, c, url, verb, redirects, attempts).client.sent|
    ensures FetchFits(config, verb, Requested(config, c, url, verb, redirects, attempts).client.sent, i)
    decreases MAX_REDIRECTS - redirects + (MAX_AUTH_ATTEMPTS - attempts)
  {
    if i == |c.sent| {
      FirstFits(config, c, url, verb, redirects, attempts);
    } else {
      var s := Sent(c, config.authentication, url, verb);
      match Decide(config, url, verb, redirects, attempts, config.net.answer(|c.sent|))
      case Follow(target) => RequestFits(config, s, target, verb, redirects + 1, attempts, i);
      case RetryDigest(challenge) => RequestFits(config, Adopted(s, challenge), url, verb, redirects, attempts + 1, i);
      case RetryBasic => RequestFits(config, s.(scheme := UseBasic), url, verb, redirects, attempts + 1, i);
      case _ =>
    }
  }

  predicate Final(config: Config, before: nat, o: Outcome) {
    o.result.Ok? ==>
      && |o.client.sent| > before && config.net.answer(|o.client.sent| - 1) == Answered(o.result.value)
      && !IsRedirect(o.result.value.status) && o.result.value.status != 401 && o.result.value.status != 403
  }

  /** A response that is returned is the last answer, and neither a redirect nor a refusal. */
  lemma {:induction false} RequestReturns(config: Config, c: Client, url: Url, verb: Str, redirects: nat, attempts: nat)
    requires redirects <= MAX_REDIRECTS && attempts <= MAX_AUTH_ATTEMPTS
    ensures Final(config, |c.sent|, Requested(config, c, url, verb, redirects, attempts))
    decreases MAX_REDIRECTS - redirects + (MAX_AUTH_ATTEMPTS - attempts)
  {
    if Allowed(config, url) {
      var s := Sent(c, config.authentication, url, verb);
      match Decide(config, url, verb, redirects, attempts, config.net.answer(|c.sent|))
      case Follow(target) => RequestReturns(config, s, target, verb, redirects + 1, attempts);
      case RetryDigest(challenge) => RequestReturns(config, Adopted(s, challenge), url, verb, redirects, attempts + 1);
      case RetryBasic => RequestReturns(config, s.(scheme := UseBasic), url, verb, redirects, attempts + 1);
      case Return(r) => DecideReturns(config, url, verb, redirects, attempts, config.net.answer(|c.sent|));
      case Fail(_) =>
    }
  }

  lemma DecideReturns(config: Config, url: Url, verb: Str, redirects: nat, attempts: nat, answer: Answer)
    requires Decide(config, url, verb, redirects, attempts, answer).Return?
    ensures var r := Decide(config, url, verb, redirects, attempts, answer).response;
      answer == Answered(r) && !IsRedirect(r.status) && r.status != 401 && r.status != 403
  {
  }

  /**
   One request, whatever the network answers: at most eight fetches, all to the
   service, and a write is repeated only after a 307 or 308 or an
   authentication challenge.
   */
  lemma RequestBounded(config: Config, c: Client, url: Url, verb: Str)
    ensures var end := Requested(config, c, url, verb, 0, 0).client;
      && Extends(c, end) && |end.sent| <= |c.sent| + 8
      && forall i | |c.sent| <= i < |end.sent| :: FetchFits(config, verb, end.sent, i)
  {
    RequestExtends(config, c, url, verb, 0, 0);
    var end := Requested(config, c, url, verb, 0, 0).client;
    forall i | |c.sent| <= i < |end.sent| ensures FetchFits(config, verb, end.sent, i) {
      RequestFits(config, c, url, verb, 0, 0, i);
    }
  }

  /** A server that redirects five times, then challenges twice. */
  function Worst(service: Url, user: Authentication, challenge: Challenge): Config {
    var answer := (n: nat) => Answered(
      if n < 5 then Response(302, Some([SLASH]), None, false, false)
      else if n < 7 then Response(401, None, Some(challenge), false, true)
      else Response(207, None, None, false, false));
    Config(service, user, Net(answer, (_, _) => Some(service)))
  }

  /** The bound is reached. */
  lemma {:induction false} EightFetches(config: Config, challenge: Challenge, c: Client, verb: Str, redirects: nat,
      attempts: nat)
    requires config == Worst(config.service, config.authentication, challenge) && config.authentication.Password?
    requires redirects <= MAX_REDIRECTS && attempts <= MAX_AUTH_ATTEMPTS
    requires !Writes(verb) && |c.sent| == redirects + attempts && (redirects < 5 ==> attempts == 0)
    ensures |Requested(config, c, config.service, verb, redirects, attempts).client.sent| == 8
    decreases MAX_REDIRECTS - redirects + (MAX_AUTH_ATTEMPTS - attempts)
  {
    var s := Sent(c, config.authentication, config.service, verb);
    if redirects < 5 {
      EightFetches(config, challenge, s, verb, redirects + 1, attempts);
    } else if attempts < 2 {
      EightFetches(config, challenge, Adopted(s, challenge), verb, redirects, attempts + 1);
    }
  }

  // ---------- nonce counts ----------

  /** What happens to the client's fields; concurrent requests interleave these. */
  datatype Step = Send(url: Url, verb: Str) | Adopt(challenge: Challenge) | SwitchToBasic

  function Next(c: Client, authentication: Authentication, step: Step): Client {
    match step
    case Send(url, verb) => Sent(c, authentication, url, verb)
    case Adopt(challenge) => Adopted(c, challenge)
    case SwitchToBasic => c.(scheme := UseBasic)
  }

  function After(c: Client, authentication: Authentication, steps: seq<Step>): Client
    decreases |steps|
  {
    if steps == [] then c else After(Next(c, authentication, steps[0]), authentication, steps[1..])
  }

  /** The digest fetches made under one adopted challenge. */
  function Uses(sent: seq<Fetch>, epoch: nat): nat {
    if sent == [] then 0
    else
      var last := sent[|sent| - 1].header;
      Uses(sent[..|sent| - 1], epoch) + if last.Digest? && last.epoch == epoch then 1 else 0
  }

  predicate NumberedAt(c: Client, i: int) {
    0 <= i < |c.sent| && c.sent[i].header.Digest? ==>
      var h := c.sent[i].header;
      && 1 <= h.epoch <= |c.adopted| && h.challenge == c.adopted[h.epoch - 1]
      && h.nonceCount == Uses(c.sent[..i], h.epoch) + 1
  }

  ghost predicate Counted(c: Client) {
    && (forall i :: NumberedAt(c, i))
    && c.nonceCount == Uses(c.sent, |c.adopted|)
    && c.challenge == (if c.adopted == [] then None else Some(c.adopted[|c.adopted| - 1]))
    && (forall epoch: nat | epoch > |c.adopted| :: Uses(c.sent, epoch) == 0)
  }

  lemma UsesSent(sent: seq<Fetch>, f: Fetch, epoch: nat)
    ensures Uses(sent + [f], epoch) == Uses(sent, epoch) + if f.header.Digest? && f.header.epoch == epoch then 1 else 0
  {
    assert (sent + [f])[..|sent|] == sent;
  }

  lemma SendNumbered(c: Client, authentication: Authentication, url: Url, verb: Str, i: int)
    requires Counted(c)
    ensures NumberedAt(Sent(c, authentication, url, verb), i)
  {
    var next := Sent(c, authentication, url, verb);
    assert NumberedAt(c, i);
    if 0 <= i < |c.sent| {
      assert next.sent[..i] == c.sent[..i];
    } else if i == |c.sent| {
      assert next.sent[..i] == c.sent;
    }
  }

  lemma SendCounts(c: Client, authentication: Authentication, url: Url, verb: Str)
    requires Counted(c)
    ensures Counted(Sent(c, authentication, url, verb))
  {
    var next := Sent(c, authentication, url, verb);
    forall i ensures NumberedAt(next, i) {
      SendNumbered(c, authentication, url, verb, i);
    }
    forall epoch: nat ensures Uses(next.sent, epoch) ==
      Uses(c.sent, epoch)
      + if next.sent[|c.sent|].header.Digest? && next.sent[|c.sent|].header.epoch == epoch then 1 else 0
    {
      UsesSent(c.sent, next.sent[|c.sent|], epoch);
    }
  }

  lemma StepCounts(c: Client, authentication: Authentication, step: Step)
    requires Counted(c)
    ensures Counted(Next(c, authentication, step))
  {
    if step.Send? {
      SendCounts(c, authentication, step.url, step.verb);
    } else {
      forall i ensures NumberedAt(Next(c, authentication, step), i) {
        assert NumberedAt(c, i);
      }
    }
  }

  lemma {:induction false} RunCounts(c: Client, authentication: Authentication, steps: seq<Step>)
    requires Counted(c)
    ensures Counted(After(c, authentication, steps))
    decreases |steps|
  {
    if steps != [] {
      StepCounts(c, authentication, steps[0]);
      RunCounts(Next(c, authentication, steps[0]), authentication, steps[1..]);
    }
  }

  /**
   In every interleaving, the n-th digest fetch under an adopted challenge
   carries that challenge and the count n: 1, 2, 3 without gap or repeat.
   */
  lemma NonceCounts(authentication: Authentication, steps: seq<Step>, i: nat)
    requires i < |After(FRESH, authentication, steps).sent|
    ensures NumberedAt(After(FRESH, authentication, steps), i)
  {
    RunCounts(FRESH, authentication, steps);
  }

  /** The steps one request takes when no other is under way. */
  lemma {:induction false} RequestIsARun(config: Config, c: Client, url: Url, verb: Str, redirects: nat, attempts: nat)
      returns (steps: seq<Step>)
    requires redirects <= MAX_REDIRECTS && attempts <= MAX_AUTH_ATTEMPTS
    ensures After(c, config.authentication, steps) == Requested(config, c, url, verb, redirects, attempts).client
    decreases MAX_REDIRECTS - redirects + (MAX_AUTH_ATTEMPTS - attempts)
  {
    if !Allowed(config, url) {
      steps := [];
    } else {
      var send := Send(url, verb);
      var s := Sent(c, config.authentication, url, verb);
      match Decide(config, url, verb, redirects, attempts, config.net.answer(|c.sent|))
      case Follow(target) =>
        var rest := RequestIsARun(config, s, target, verb, redirects + 1, attempts);
        steps := [send] + rest;
        assert steps[1..] == rest;
      case RetryDigest(challenge) =>
        var rest := RequestIsARun(config, Adopted(s, challenge), url, verb, redirects, attempts + 1);
        steps := [send, Adopt(challenge)] + rest;
        assert steps[1..][1..] == rest;
      case RetryBasic =>
        var rest := RequestIsARun(config, s.(scheme := UseBasic), url, verb, redirects, attempts + 1);
        steps := [send, SwitchToBasic] + rest;
        assert steps[1..][1..] == rest;
      case _ =>
        steps := [send];
        assert steps[1..] == [];
    }
  }

  /** So the counts stay right from request to request. */
  lemma RequestCounts(config: Config, c: Client, url: Url, verb: Str)
    requires Counted(c)
    ensures Counted(Requested(config, c, url, verb, 0, 0).client)
  {
    var steps := RequestIsARun(config, c, url, verb, 0, 0);
    RunCounts(c, config.authentication, steps);
  }

  lemma {:induction false} UsesGrow(sent: seq<Fetch>, i: nat, j: nat, epoch: nat)
    requires i <= j <= |sent|
    ensures Uses(sent[..i], epoch) <= Uses(sent[..j], epoch)
    decreases j
  {
    if i < j {
      UsesGrow(sent, i, j - 1, epoch);
      assert sent[..j][..j - 1] == sent[..j - 1];
    }
  }

  predicate UsedAt(sent: seq<Fetch>, i: int, epoch: nat) {
    0 <= i < |sent| && sent[i].header.Digest? && sent[i].header.epoch == epoch
  }

  /** Under one adopted challenge the count grows from fetch to fetch. */
  lemma CountGrows(c: Client, i: nat, j: nat, epoch: nat)
    requires Counted(c) && i < j && UsedAt(c.sent, i, epoch) && UsedAt(c.sent, j, epoch)
    ensures c.sent[i].header.nonceCount < c.sent[j].header.nonceCount
  {
    assert NumberedAt(c, i) && NumberedAt(c, j);
    UsesGrow(c.sent, i + 1, j, epoch);
    UsesSent(c.sent[..i], c.sent[i], epoch);
    assert c.sent[..i + 1] == c.sent[..i] + [c.sent[i]];
  }

  lemma UsedIsCounted(sent: seq<Fetch>, i: nat, epoch: nat)
    requires UsedAt(sent, i, epoch)
    ensures Uses(sent, epoch) > 0
  {
    UsesSent(sent[..i], sent[i], epoch);
    assert sent[..i + 1] == sent[..i] + [sent[i]];
    UsesGrow(sent, i + 1, |sent|, epoch);
    assert sent[..|sent|] == sent;
  }

  lemma {:induction false} FirstUse(sent: seq<Fetch>, epoch: nat) returns (i: nat)
    requires Uses(sent, epoch) > 0
    ensures UsedAt(sent, i, epoch) && Uses(sent[..i], epoch) == 0
  {
    var last := |sent| - 1;
    if Uses(sent[..last], epoch) == 0 {
      i := last;
    } else {
      i := FirstUse(sent[..last], epoch);
      assert sent[..last][..i] == sent[..i];
    }
  }

  /** The header carries its count: only a challenge with a quality of protection asks for one. */
  predicate SendsCount(h: Header) {
    h.Digest? && h.challenge.qop
  }

  /** Two digest fetches that send one nonce with one count: the second is a replay to the server. */
  predicate SamePair(sent: seq<Fetch>, i: int, j: int) {
    && 0 <= i < j < |sent| && SendsCount(sent[i].header) && SendsCount(sent[j].header)
    && sent[i].header.challenge.nonce == sent[j].header.challenge.nonce
    && sent[i].header.nonceCount == sent[j].header.nonceCount
  }

  /** The server offered one nonce twice, asking for counts, and the client made a digest fetch under each. */
  predicate UsedTwice(c: Client, a: int, b: int) {
    && 1 <= a < b <= |c.adopted| && c.adopted[a - 1].nonce == c.adopted[b - 1].nonce
    && c.adopted[a - 1].qop && c.adopted[b - 1].qop
    && Uses(c.sent, a) > 0 && Uses(c.sent, b) > 0
  }

  lemma PairFromTwo(c: Client, a: nat, b: nat) returns (i: nat, j: nat)
    requires Counted(c) && UsedTwice(c, a, b)
    ensures SamePair(c.sent, i, j)
  {
    i := FirstUse(c.sent, a);
    j := FirstUse(c.sent, b);
    assert NumberedAt(c, i) && NumberedAt(c, j);
    if j < i {
      i, j := j, i;
    }
  }

  lemma TwoFromPair(c: Client, i: nat, j: nat) returns (a: nat, b: nat)
    requires Counted(c) && SamePair(c.sent, i, j)
    ensures UsedTwice(c, a, b)
  {
    assert NumberedAt(c, i) && NumberedAt(c, j);
    a, b := c.sent[i].header.epoch, c.sent[j].header.epoch;
    UsedIsCounted(c.sent, i, a);
    UsedIsCounted(c.sent, j, b);
    assert a != b by {
      if a == b {
        CountGrows(c, i, j, a);
      }
    }
    if b < a {
      a, b := b, a;
    }
  }

  /**
   A nonce and count are sent together twice exactly when one nonce was adopted
   twice, both times with qop, and used both times.
   */
  lemma ReplayedExactly(c: Client)
    requires Counted(c)
    ensures (exists i, j :: SamePair(c.sent, i, j)) <==> (exists a, b :: UsedTwice(c, a, b))
  {
    if i, j :| SamePair(c.sent, i, j) {
      var a, b := TwoFromPair(c, i, j);
    }
    if a, b :| UsedTwice(c, a, b) {
      var i, j := PairFromTwo(c, a, b);
    }
  }

  /** As long as the server never offers a nonce twice, no nonce and count are ever sent together twice. */
  lemma NeverReplayed(c: Client, i: nat, j: nat)
    requires Counted(c) && forall a, b | 0 <= a < b < |c.adopted| :: c.adopted[a].nonce != c.adopted[b].nonce
    ensures !SamePair(c.sent, i, j)
  {
    ReplayedExactly(c);
    forall a, b ensures !UsedTwice(c, a, b) {
      assert 1 <= a < b <= |c.adopted| ==> c.adopted[a - 1].nonce != c.adopted[b - 1].nonce;
    }
  }

  /** Offered the same nonce again, the client starts over and repeats count 1. */
  lemma ReofferedNonceReplays(c: Client, authentication: Authentication, challenge: Challenge, url: Url, verb: Str)
    requires authentication.Password? && challenge.qop
    ensures var once := After(c, authentication, [Adopt(challenge), Send(url, verb)]);
      var twice := After(once, authentication, [Adopt(challenge), Send(url, verb)]);
      var i, j := |c.sent|, |c.sent| + 1;
      && |twice.sent| == |c.sent| + 2 && SamePair(twice.sent, i, j)
      && twice.sent[i].header.challenge == challenge && twice.sent[i].header.nonceCount == 1
  {
    var steps := [Adopt(challenge), Send(url, verb)];
    assert steps[1..] == [Send(url, verb)] && steps[1..][1..] == [];
    forall d: Client ensures After(d, authentication, steps) == Sent(Adopted(d, challenge), authentication, url, verb) {
      assert After(Adopted(d, challenge), authentication, steps[1..])
          == After(Sent(Adopted(d, challenge), authentication, url, verb), authentication, []);
    }
  }

  // ---------- the code ----------

  class DavClient {
    const config: Config
    var authenticationScheme: Scheme
    var challenge: Option<Challenge>
    var nonceCount: nat
    /** What went out. */
    var sent: seq<Fetch>
    /** Every challenge adopted. */
    var adopted: seq<Challenge>

    ghost function State(): Client
      reads this
    {
      Client(authenticationScheme, challenge, nonceCount, sent, adopted)
    }

    constructor (config: Config)
      ensures State() == FRESH && this.config == config
    {
      this.config := config;
      authenticationScheme, challenge, nonceCount, sent, adopted := Unset, None, 0, [], [];
    }

    /** `authorization` and the fetch made with it. */
    method Send(url: Url, verb: Str) returns (answer: Answer)
      modifies this
      ensures State() == Sent(old(State()), config.authentication, url, verb)
      ensures answer == config.net.answer(old(|sent|))
    {
      var header := NoHeader;
      if config.authentication.Token? {
        header := Bearer;
      } else if authenticationScheme.UseBasic? {
        header := Basic;
      } else if authenticationScheme.UseDigest? && challenge.Some? {
        nonceCount := nonceCount + 1;
        header := Digest(|adopted|, challenge.value, nonceCount);
      }
      answer := config.net.answer(|sent|);
      sent := sent + [Fetch(url, verb, header)];
    }

    method Request(url: Url, verb: Str, redirects: nat, attempts: nat) returns (result: Result<Response>)
      requires redirects <= MAX_REDIRECTS && attempts <= MAX_AUTH_ATTEMPTS
      modifies this
      ensures Outcome(State(), result) == Requested(config, old(State()), url, verb, redirects, attempts)
      decreases MAX_REDIRECTS - redirects + (MAX_AUTH_ATTEMPTS - attempts)
    {
      if url.protocol != config.service.protocol {
        return Err("https-required");
      }
      if url.origin != config.service.origin {
        return Err("unsafe-redirect");
      }
      var answer := Send(url, verb);
      if answer.Failed? {
        return Err("connection-failed");
      }
      var r := answer.response;
      if 300 <= r.status < 400 {
        if redirects >= MAX_REDIRECTS {
          return Err("too-many-redirects");
        }
        if r.location.None? || r.location.value == [] {
          return Err("invalid-response");
        }
        if Writes(verb) && r.status != 307 && r.status != 308 {
          return Err("unsafe-redirect");
        }
        var target := config.net.resolve(r.location.value, url);
        if target.None? {
          return Err("Invalid URL");
        }
        result := Request(target.value, verb, redirects + 1, attempts);
        return;
      }
      if r.status == 401 && config.authentication.Password? && attempts < MAX_AUTH_ATTEMPTS {
        if r.challenge.Some? {
          if attempts > 0 && !r.stale {
            return Err("authentication-failed");
          }
          authenticationScheme := UseDigest;
          challenge := r.challenge;
          nonceCount := 0;
          adopted := adopted + [r.challenge.value];
          result := Request(url, verb, redirects, attempts + 1);
          return;
        }
        if r.basic && attempts == 0 {
          authenticationScheme := UseBasic;
          result := Request(url, verb, redirects, attempts + 1);
          return;
        }
        return Err(if attempts > 0 then "authentication-failed" else "unsupported-authentication");
      }
      if r.status == 401 || r.status == 403 {
        return Err("authentication-failed");
      }
      return Ok(r);
    }
  }
}

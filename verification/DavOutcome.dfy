/**
 How a request ends: which answers it goes on after, what each of its fetches
 carries, and the one cause of every result, in terms of the fetches made and
 the answers they got.
 */
module DavOutcome {
  import opened JsString
  import opened Results
  import opened Dav

  // ---------- the answers of a request ----------

  function CountAt(answer: Answer, low: nat, high: nat): nat {
    if answer.Answered? && low <= answer.response.status <= high then 1 else 0
  }

  /** How many of the answers to the fetches from one number up to another are redirects. */
  function Redirects(net: Net, from: nat, to: nat): nat
    decreases to - from
  {
    if from >= to then 0 else CountAt(net.answer(from), 300, 399) + Redirects(net, from + 1, to)
  }

  /** How many of them are challenges. */
  function Challenges(net: Net, from: nat, to: nat): nat
    decreases to - from
  {
    if from >= to then 0 else CountAt(net.answer(from), 401, 401) + Challenges(net, from + 1, to)
  }

  /** The request so far: where it is, how often it was redirected and how often challenged. */
  datatype Hop = Hop(url: Url, verb: Str, redirects: nat, challenges: nat)

  predicate Redirecting(r: Response) {
    300 <= r.status <= 399
  }

  predicate Located(r: Response) {
    r.location.Some? && r.location.value != []
  }

  /** A change may be sent on only where the status says that the method stays. */
  predicate KeepsMethod(r: Response, verb: Str) {
    Upper(verb) in {L("POST"), L("PUT"), L("PATCH"), L("DELETE")} ==> r.status == 307 || r.status == 308
  }

  /** Where a redirect leads: one of the first five, to a place, and harmless. */
  function Target(config: Config, h: Hop, r: Response): Option<Url> {
    if Redirecting(r) && h.redirects < 5 && Located(r) && KeepsMethod(r, h.verb)
    then config.net.resolve(r.location.value, h.url) else None
  }

  predicate AtHome(config: Config, url: Url) {
    url.protocol == config.service.protocol && url.origin == config.service.origin
  }

  /** A refusal that may be answered with credentials: the first one, or a second one for a stale nonce. */
  predicate AnswersDigest(config: Config, h: Hop, r: Response) {
    r.status == 401 && config.authentication.Password? && r.challenge.Some?
    && (h.challenges == 0 || (h.challenges == 1 && r.stale))
  }

  predicate AnswersBasic(config: Config, h: Hop, r: Response) {
    r.status == 401 && config.authentication.Password? && r.challenge.None? && r.basic && h.challenges == 0
  }

  /** The request must not end here. */
  predicate GoesOn(config: Config, h: Hop, answer: Answer) {
    answer.Answered? &&
    var r := answer.response;
    var target := Target(config, h, r);
    (target.Some? && AtHome(config, target.value)) || AnswersDigest(config, h, r) || AnswersBasic(config, h, r)
  }

  /** The next fetch: at the target of the redirect, or at the same place with the credentials asked for. */
  predicate Next(config: Config, h: Hop, r: Response, f: Fetch) {
    if Redirecting(r) then Target(config, h, r) == Some(f.url)
    else
      && f.url == h.url
      && if r.challenge.Some? then f.header.Digest? && f.header.challenge == r.challenge.value
        && f.header.nonceCount == 1
         else f.header == Basic
  }

  // ---------- the cause of a result ----------

  predicate Accepted(r: Response) {
    !Redirecting(r) && r.status != 401 && r.status != 403
  }

  /** Refused for good: forbidden, or not authorised with nothing left to answer. */
  predicate RefusedAfter(config: Config, h: Hop, r: Response) {
    || r.status == 403
    || (r.status == 401 && !AnswersDigest(config, h, r) && !AnswersBasic(config, h, r)
        && (config.authentication.Token? || h.challenges > 0))
  }

  /** No scheme of the first challenge is one the client can use. */
  predicate Unusable(config: Config, h: Hop, r: Response) {
    r.status == 401 && config.authentication.Password? && h.challenges == 0 && r.challenge.None? && !r.basic
  }

  /** Every result has exactly its own cause. */
  predicate Caused(config: Config, h: Hop, answer: Answer, result: Result<Response>) {
    if answer.Failed? then result == Err("connection-failed")
    else
      var r := answer.response;
      var target := Target(config, h, r);
      && (result.Ok? <==> Accepted(r)) && (result.Ok? ==> result.value == r)
      && (result == Err("too-many-redirects") <==> Redirecting(r) && h.redirects >= 5)
      && (result == Err("invalid-response") <==> Redirecting(r) && h.redirects < 5 && !Located(r))
      && (result == Err("unsafe-redirect") <==>
            || (Redirecting(r) && h.redirects < 5 && Located(r) && !KeepsMethod(r, h.verb))
            || (target.Some? && target.value.protocol == config.service.protocol && !AtHome(config, target.value)))
      && (result == Err("https-required") <==> target.Some? && target.value.protocol != config.service.protocol)
      && (result == Err("Invalid URL") <==>
            Redirecting(r) && h.redirects < 5 && Located(r) && KeepsMethod(r, h.verb) && target.None?)
      && (result == Err("authentication-failed") <==> RefusedAfter(config, h, r))
      && (result == Err("unsupported-authentication") <==> Unusable(config, h, r))
      && result != Err("connection-failed")
  }

  /** The hop of the fetch `i` of a request whose first fetch is `first`. */
  function HopAt(config: Config, start: Hop, sent: seq<Fetch>, first: nat, i: nat): Hop
    requires i < |sent|
  {
    Hop(sent[i].url, start.verb, start.redirects + Redirects(config.net, first, i),
        start.challenges + Challenges(config.net, first, i))
  }

  /** What holds of the fetch `i`: more are made exactly when the request must go on, and the last one decides. */
  predicate FetchExact(config: Config, start: Hop, o: Outcome, first: nat, i: nat)
    requires i < |o.client.sent|
  {
    var sent := o.client.sent;
    var h := HopAt(config, start, sent, first, i);
    && sent[i].verb == start.verb && AtHome(config, sent[i].url)
    && (i + 1 < |sent| <==> GoesOn(config, h, config.net.answer(i)))
    && (i + 1 < |sent| ==> Next(config, h, config.net.answer(i).response, sent[i + 1]))
    && (i + 1 == |sent| ==> Caused(config, h, config.net.answer(i), o.result))
  }

  ghost predicate Exact(config: Config, start: Hop, before: Client, o: Outcome) {
    if !AtHome(config, start.url) then
      && o.client == before
      && o.result == Err(if start.url.protocol != config.service.protocol then "https-required" else "unsafe-redirect")
    else
      && |before.sent| < |o.client.sent| && o.client.sent[|before.sent|].url == start.url
      && forall i | |before.sent| <= i < |o.client.sent| :: FetchExact(config, start, o, |before.sent|, i)
  }

  // ---------- the proof ----------

  /** The first fetch of what follows carries the header the client's fields call for. */
  lemma FirstHeader(config: Config, c: Client, url: Url, verb: Str, redirects: nat, attempts: nat)
    requires redirects <= MAX_REDIRECTS && attempts <= MAX_AUTH_ATTEMPTS && AtHome(config, url)
    ensures var end := Requested(config, c, url, verb, redirects, attempts).client;
      var s := Sent(c, config.authentication, url, verb);
      |end.sent| > |c.sent| && end.sent[|c.sent|] == s.sent[|c.sent|]
  {
    var s := Sent(c, config.authentication, url, verb);
    var end := Requested(config, c, url, verb, redirects, attempts).client;
    RequestKeeps(config, c, url, verb, redirects, attempts);
    assert end.sent[..|s.sent|][|c.sent|] == s.sent[|c.sent|];
  }

  lemma RequestKeeps(config: Config, c: Client, url: Url, verb: Str, redirects: nat, attempts: nat)
    requires redirects <= MAX_REDIRECTS && attempts <= MAX_AUTH_ATTEMPTS && AtHome(config, url)
    ensures Extends(Sent(c, config.authentication, url, verb),
      Requested(config, c, url, verb, redirects, attempts).client)
  {
    var s := Sent(c, config.authentication, url, verb);
    match Decide(config, url, verb, redirects, attempts, config.net.answer(|c.sent|))
    case Follow(target) => RequestExtends(config, s, target, verb, redirects + 1, attempts);
    case RetryDigest(challenge) => RequestExtends(config, Adopted(s, challenge), url, verb, redirects, attempts + 1);
    case RetryBasic => RequestExtends(config, s.(scheme := UseBasic), url, verb, redirects, attempts + 1);
    case _ =>
  }

  /** The fetches after the first one, seen from the first one. */
  lemma LaterFetches(config: Config, start: Hop, next: Hop, o: Outcome, first: nat, i: nat)
    requires first < i < |o.client.sent| && next.verb == start.verb
    requires next.redirects == start.redirects + CountAt(config.net.answer(first), 300, 399)
    requires next.challenges == start.challenges + CountAt(config.net.answer(first), 401, 401)
    requires FetchExact(config, next, o, first + 1, i)
    ensures FetchExact(config, start, o, first, i)
  {
    assert HopAt(config, start, o.client.sent, first, i) == HopAt(config, next, o.client.sent, first + 1, i);
  }

  /** What one more hop adds to the count of redirects or of challenges. */
  predicate Follows(config: Config, start: Hop, first: nat, next: Hop) {
    && next.verb == start.verb
    && next.redirects == start.redirects + CountAt(config.net.answer(first), 300, 399)
    && next.challenges == start.challenges + CountAt(config.net.answer(first), 401, 401)
  }

  /** A request that goes on: exact from its second fetch on, and its first fetch has led there. */
  lemma Continued(config: Config, c: Client, start: Hop, s: Client, next: Hop, o: Outcome)
    requires AtHome(config, start.url) && AtHome(config, next.url) && Follows(config, start, |c.sent|, next)
    requires s.sent == Sent(c, config.authentication, start.url, start.verb).sent && Extends(s, o.client)
    requires Exact(config, next, s, o)
    requires GoesOn(config, start, config.net.answer(|c.sent|))
    requires |o.client.sent| > |s.sent| ==>
      Next(config, start, config.net.answer(|c.sent|).response, o.client.sent[|s.sent|])
    ensures Exact(config, start, c, o)
  {
    var first, sent := |c.sent|, o.client.sent;
    assert sent[first] == sent[..|s.sent|][first] == s.sent[first];
    assert HopAt(config, start, sent, first, first) == start;
    forall i | first <= i < |sent| ensures FetchExact(config, start, o, first, i) {
      if i > first {
        LaterFetches(config, start, next, o, first, i);
      }
    }
  }

  /** A request that ends with its first fetch. */
  lemma EndsHere(config: Config, c: Client, start: Hop, o: Outcome)
    requires AtHome(config, start.url)
    requires o.client.sent == Sent(c, config.authentication, start.url, start.verb).sent
    requires !GoesOn(config, start, config.net.answer(|c.sent|))
    requires Caused(config, start, config.net.answer(|c.sent|), o.result)
    ensures Exact(config, start, c, o)
  {
    assert HopAt(config, start, o.client.sent, |c.sent|, |c.sent|) == start;
  }

  lemma FollowedIsExact(config: Config, c: Client, start: Hop, s: Client, target: Url, o: Outcome)
    requires start.redirects < 5 && start.challenges <= 2 && AtHome(config, start.url)
    requires s == Sent(c, config.authentication, start.url, start.verb)
    requires Decide(config, start.url, start.verb, start.redirects, start.challenges, config.net.answer(|c.sent|))
      == Follow(target)
    requires o == Requested(config, s, target, start.verb, start.redirects + 1, start.challenges)
    requires Exact(config, Hop(target, start.verb, start.redirects + 1, start.challenges), s, o)
    ensures Exact(config, start, c, o)
  {
    if AtHome(config, target) {
      RequestExtends(config, s, target, start.verb, start.redirects + 1, start.challenges);
      Continued(config, c, start, s, Hop(target, start.verb, start.redirects + 1, start.challenges), o);
    } else {
      EndsHere(config, c, start, o);
    }
  }

  lemma RetriedIsExact(config: Config, c: Client, start: Hop, s: Client, o: Outcome)
    requires start.redirects <= 5 && start.challenges < 2 && AtHome(config, start.url)
    requires var move :=
      Decide(config, start.url, start.verb, start.redirects, start.challenges, config.net.answer(|c.sent|));
      var sent := Sent(c, config.authentication, start.url, start.verb);
      (move.RetryDigest? && s == Adopted(sent, move.challenge)) || (move.RetryBasic? && s == sent.(scheme := UseBasic))
    requires o == Requested(config, s, start.url, start.verb, start.redirects, start.challenges + 1)
    requires Exact(config, start.(challenges := start.challenges + 1), s, o)
    ensures Exact(config, start, c, o)
  {
    RequestExtends(config, s, start.url, start.verb, start.redirects, start.challenges + 1);
    FirstHeader(config, s, start.url, start.verb, start.redirects, start.challenges + 1);
    Continued(config, c, start, s, start.(challenges := start.challenges + 1), o);
  }

  /** When a decision ends the request, its result has its cause. */
  lemma DecidedIsCaused(config: Config, start: Hop, answer: Answer, result: Result<Response>)
    requires start.redirects <= 5 && start.challenges <= 2
    requires var move := Decide(config, start.url, start.verb, start.redirects, start.challenges, answer);
      (move.Return? && result == Ok(move.response)) || (move.Fail? && result == Err(move.message))
    ensures !GoesOn(config, start, answer) && Caused(config, start, answer, result)
  {
  }

  lemma {:induction false} RequestIsExact(config: Config, c: Client, start: Hop)
    requires start.redirects <= 5 && start.challenges <= 2
    ensures Exact(config, start, c, Requested(config, c, start.url, start.verb, start.redirects, start.challenges))
    decreases 5 - start.redirects + (2 - start.challenges)
  {
    if AtHome(config, start.url) {
      var s := Sent(c, config.authentication, start.url, start.verb);
      var o := Requested(config, c, start.url, start.verb, start.redirects, start.challenges);
      var answer := config.net.answer(|c.sent|);
      match Decide(config, start.url, start.verb, start.redirects, start.challenges, answer)
      case Follow(target) =>
        RequestIsExact(config, s, Hop(target, start.verb, start.redirects + 1, start.challenges));
        FollowedIsExact(config, c, start, s, target, o);
      case RetryDigest(challenge) =>
        RequestIsExact(config, Adopted(s, challenge), start.(challenges := start.challenges + 1));
        RetriedIsExact(config, c, start, Adopted(s, challenge), o);
      case RetryBasic =>
        RequestIsExact(config, s.(scheme := UseBasic), start.(challenges := start.challenges + 1));
        RetriedIsExact(config, c, start, s.(scheme := UseBasic), o);
      case Return(r) =>
        DecidedIsCaused(config, start, answer, o.result);
        EndsHere(config, c, start, o);
      case Fail(message) =>
        DecidedIsCaused(config, start, answer, o.result);
        EndsHere(config, c, start, o);
    }
  }

  /**
   Every request, whatever the network answers: it is refused at once for a
   foreign address; else it goes on after every redirect and every challenge
   that it can follow, with the fetch it calls for, and after no other answer;
   and the last answer alone decides the result, each in its own way.
   */
  lemma RequestExactly(config: Config, c: Client, url: Url, verb: Str)
    ensures Exact(config, Hop(url, verb, 0, 0), c, Requested(config, c, url, verb, 0, 0))
  {
    RequestIsExact(config, c, Hop(url, verb, 0, 0));
  }

  /** A request to the service returns a response exactly when its last answer is one that is accepted. */
  lemma ReturnsExactly(config: Config, c: Client, url: Url, verb: Str, r: Response)
    requires url.protocol == config.service.protocol && url.origin == config.service.origin
    ensures var o := Requested(config, c, url, verb, 0, 0);
      && |o.client.sent| > |c.sent|
      && (o.result == Ok(r) <==>
            config.net.answer(|o.client.sent| - 1) == Answered(r)
            && !(300 <= r.status <= 399) && r.status != 401 && r.status != 403)
  {
    var o := Requested(config, c, url, verb, 0, 0);
    RequestExactly(config, c, url, verb);
    assert FetchExact(config, Hop(url, verb, 0, 0), o, |c.sent|, |o.client.sent| - 1);
  }

  // ---------- what every fetch carries ----------

  /** The last challenge adopted or switch made, and the fetches since. */
  function LastScheme(steps: seq<Step>): (Option<Step>, nat) {
    if steps == [] then (None, 0)
    else
      var step := steps[|steps| - 1];
      var before := LastScheme(steps[..|steps| - 1]);
      if step.Send? then (before.0, before.1 + 1) else (Some(step), 0)
  }

  lemma {:induction false} AfterSnoc(c: Client, authentication: Authentication, steps: seq<Step>, step: Step)
    ensures After(c, authentication, steps + [step]) == Dav.Next(After(c, authentication, steps), authentication, step)
    decreases |steps|
  {
    if steps == [] {
      assert [] + [step] == [step] && [step][1..] == [];
    } else {
      AfterSnoc(Dav.Next(c, authentication, steps[0]), authentication, steps[1..], step);
      TailOfConcat(steps, [step]);
    }
  }

  lemma {:induction false} SchemeIsLast(authentication: Authentication, steps: seq<Step>)
    requires authentication.Password?
    ensures var c := After(FRESH, authentication, steps);
      var last := LastScheme(steps);
      match last.0
      case None => c.scheme.Unset?
      case Some(Adopt(challenge)) => c.scheme.UseDigest? && c.challenge == Some(challenge) && c.nonceCount == last.1
      case Some(_) => c.scheme.UseBasic?
    decreases |steps|
  {
    if steps != [] {
      var front := steps[..|steps| - 1];
      SchemeIsLast(authentication, front);
      AfterSnoc(FRESH, authentication, front, steps[|steps| - 1]);
      assert front + [steps[|steps| - 1]] == steps;
      AdoptOrSwitch(front);
    }
  }

  lemma {:induction false} AdoptOrSwitch(steps: seq<Step>)
    ensures var last := LastScheme(steps).0; last.Some? ==> !last.value.Send?
  {
    if steps != [] {
      AdoptOrSwitch(steps[..|steps| - 1]);
    }
  }

  /**
   In every interleaving: a client with a token always sends it; one with a
   password sends nothing before the first challenge, then what the last
   challenge asks for, counting the fetches since.
   */
  lemma HeaderExactly(authentication: Authentication, steps: seq<Step>, url: Url, verb: Str)
    ensures var c := After(FRESH, authentication, steps);
      var sent := After(FRESH, authentication, steps + [Send(url, verb)]).sent;
      var last := LastScheme(steps);
      && |sent| == |c.sent| + 1 && sent[..|c.sent|] == c.sent
      && sent[|c.sent|].url == url && sent[|c.sent|].verb == verb
      && var h := sent[|c.sent|].header;
         if authentication.Token? then h == Bearer
         else match last.0
           case None => h == NoHeader
           case Some(Adopt(challenge)) => h.Digest? && h.challenge == challenge && h.nonceCount == last.1 + 1
           case Some(_) => h == Basic
  {
    AfterSnoc(FRESH, authentication, steps, Send(url, verb));
    if authentication.Password? {
      SchemeIsLast(authentication, steps);
    }
  }
}

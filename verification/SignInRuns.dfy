/** Whole sessions of the emailed-code step: what an onlooker can tell about the
    accounts, and how often and how late a code can be sent, guessed and used. */
module SignInRuns {
  import opened Strings
  import opened SignIn

  /** The notes after a session's requests. */
  function After(qs: seq<Request>): Notes {
    if qs == [] then FRESH else Handle(After(qs[..|qs| - 1]), qs[|qs| - 1]).notes
  }

  /** What the step answered to each of them. */
  function Answers(qs: seq<Request>): seq<Response> {
    if qs == [] then []
    else Answers(qs[..|qs| - 1]) + [Handle(After(qs[..|qs| - 1]), qs[|qs| - 1]).response]
  }

  function Jobs(qs: seq<Request>): seq<Option<Job>> {
    if qs == [] then []
    else Jobs(qs[..|qs| - 1]) + [Handle(After(qs[..|qs| - 1]), qs[|qs| - 1]).job]
  }

  /** No request of the session has signed anyone in. */
  predicate Unsigned(qs: seq<Request>) {
    qs == [] || (Unsigned(qs[..|qs| - 1]) && !Handle(After(qs[..|qs| - 1]), qs[|qs| - 1]).response.Success?)
  }

  // --- the accounts do not show ------------------------------------------------------

  /** The same but for the accounts, no user being known. */
  ghost predicate Alike(q: Request, r: Request) {
    q.event == r.event && q.clock == r.clock && q.draw == r.draw && q.known == None && r.known == None
  }

  ghost predicate AllAlike(qs: seq<Request>, rs: seq<Request>) {
    |qs| == |rs| && forall i :: 0 <= i < |qs| ==> Alike(qs[i], rs[i])
  }

  /** One request from the same notes: unless one of the two signs in, both answer
      alike and leave the same notes, whatever either database holds. */
  lemma StepAlike(n: Notes, q: Request, r: Request)
    requires Alike(q, r)
    ensures var a, b := Handle(n, q), Handle(n, r);
            a == b || a.response.Success? || b.response.Success?
  {
  }

  /** Two sessions with the same posts, clock readings and codes, over arbitrary and
      changing account databases, show the same answers and leave the same notes, up
      to the first sign-in of either. The jobs handed over are the same as well. */
  lemma {:induction false} AccountsDoNotShow(qs: seq<Request>, rs: seq<Request>)
    requires AllAlike(qs, rs) && Unsigned(qs) && Unsigned(rs)
    ensures Answers(qs) == Answers(rs) && Jobs(qs) == Jobs(rs) && After(qs) == After(rs)
  {
    if qs != [] {
      var n := |qs| - 1;
      AccountsDoNotShow(qs[..n], rs[..n]);
      StepAlike(After(qs[..n]), qs[n], rs[n]);
    }
  }

  /** Where they part, the right code was typed: a session that signs in where its
      twin does not has posted the code it was sent. */
  lemma PartingIsARightCode(qs: seq<Request>, rs: seq<Request>, q: Request, r: Request)
    requires AllAlike(qs, rs) && Unsigned(qs) && Unsigned(rs) && Alike(q, r)
    requires Handle(After(qs), q) != Handle(After(rs), r)
    ensures TypesIt(After(qs), q) && TypesIt(After(rs), r)
  {
    AccountsDoNotShow(qs, rs);
  }

  // --- bounds --------------------------------------------------------------------------

  /** A positive clock that never goes back. */
  predicate Ticks(qs: seq<Request>) {
    && (forall i :: 0 <= i < |qs| ==>
          0 < qs[i].clock.live <= qs[i].clock.gate <= qs[i].clock.send <= qs[i].clock.page)
    && (forall i :: 0 < i < |qs| ==> qs[i - 1].clock.page <= qs[i].clock.live)
  }

  /** A code sent: when, to whom, which, and how many code posts and live-code posts since. */
  datatype Sent = Sent(at: int, to: string, code: string, posts: nat, met: nat)

  /** What one request makes of the log. */
  function LogStep(n: Notes, q: Request, log: seq<Sent>): seq<Sent> {
    var out := Handle(n, q);
    if out.response.Success? then []
    else if out.job.Some? then log + [Sent(q.clock.send, out.job.value.address, out.job.value.code, 0, 0)]
    else if q.event.CodePost? && log != [] then
      var last := log[|log| - 1];
      log[|log| - 1 := last.(posts := last.posts + 1, met := last.met + if MeetsLive(n, q) then 1 else 0)]
    else log
  }

  /** The codes a session was sent since it last signed in, in order. */
  function Log(qs: seq<Request>): seq<Sent> {
    if qs == [] then [] else LogStep(After(qs[..|qs| - 1]), qs[|qs| - 1], Log(qs[..|qs| - 1]))
  }

  /** Posts that met a live code, in all. */
  function Met(log: seq<Sent>): nat {
    if log == [] then 0 else Met(log[..|log| - 1]) + log[|log| - 1].met
  }

  /** ... of a session, since it last signed in. */
  function LiveMet(qs: seq<Request>): nat {
    if qs == [] || SignsIn(qs[..|qs| - 1], qs[|qs| - 1]) then 0
    else LiveMet(qs[..|qs| - 1]) + if MeetsLive(After(qs[..|qs| - 1]), qs[|qs| - 1]) then 1 else 0
  }

  predicate SignsIn(qs: seq<Request>, q: Request) { Handle(After(qs), q).response.Success? }

  /** At most five codes, each half a minute after the one before, and none of them
      met alive more than five times. */
  predicate Bounded(log: seq<Sent>) {
    && |log| <= 5
    && (forall i :: 0 < i < |log| ==> log[i].at >= log[i - 1].at + 30_000)
    && (forall i :: 0 <= i < |log| ==> log[i].at > 0 && log[i].met <= 5)
  }

  /** The notes say what the log does. */
  predicate Tells(n: Notes, log: seq<Sent>, now: int) {
    && Parse(n.sends) == |log|
    && (log == [] ==> n.code == None && n.issuedAt == None && n.address == None)
    && (log != [] ==>
          var last := log[|log| - 1];
          && n.issuedAt == Some(last.at) && n.address == Some(last.to) && n.attempted == Some(last.to)
          && n.wrong.Some? && n.wrong.value == last.posts && last.at <= now
          && n.code == (if last.posts < 5 then Some(last.code) else None)
          && last.met <= last.posts)
  }

  function LastRead(qs: seq<Request>): int { if qs == [] then 0 else qs[|qs| - 1].clock.page }

  predicate Reads(q: Request, now: int) {
    0 < q.clock.live && now <= q.clock.live <= q.clock.gate <= q.clock.send <= q.clock.page
  }

  /** A code is sent only past the gate, and only while fewer than five were. */
  lemma SendBounded(n: Notes, q: Request, log: seq<Sent>, now: int)
    requires Bounded(log) && Tells(n, log, now) && Reads(q, now) && Handle(n, q).job.Some?
    ensures Bounded(LogStep(n, q, log)) && Tells(Handle(n, q).notes, LogStep(n, q, log), q.clock.page)
  {
    assert Gate(n, q.clock.gate) == None;
    assert log != [] ==> log[|log| - 1].at > 0;
  }

  lemma PostBounded(n: Notes, q: Request, log: seq<Sent>, now: int)
    requires Bounded(log) && Tells(n, log, now) && Reads(q, now)
    requires q.event.CodePost? && !Handle(n, q).response.Success?
    ensures Bounded(LogStep(n, q, log)) && Tells(Wrong(n), LogStep(n, q, log), q.clock.page)
  {
  }

  /** A sign-in leaves no code, and nothing of the one that was used. */
  predicate Cleared(n: Notes) {
    n.address == None && n.code == None && n.issuedAt == None && n.sends == None && n.wrong == None
  }

  lemma SignInClears(n: Notes, q: Request)
    requires Handle(n, q).response.Success?
    ensures Cleared(Handle(n, q).notes) && Handle(n, q).notes.attempted == n.attempted
  {
  }

  lemma StepBounded(n: Notes, q: Request, log: seq<Sent>, now: int)
    requires Bounded(log) && Tells(n, log, now) && Reads(q, now)
    ensures Bounded(LogStep(n, q, log)) && Tells(Handle(n, q).notes, LogStep(n, q, log), q.clock.page)
  {
    if Handle(n, q).response.Success? { SignInClears(n, q); }
    else if Handle(n, q).job.Some? { SendBounded(n, q, log, now); }
    else if q.event.CodePost? { PostBounded(n, q, log, now); }
  }

  lemma TicksPrefix(qs: seq<Request>)
    requires Ticks(qs) && qs != []
    ensures Ticks(qs[..|qs| - 1]) && Reads(qs[|qs| - 1], LastRead(qs[..|qs| - 1]))
  {
    var front := qs[..|qs| - 1];
    assert forall i :: 0 <= i < |front| ==> front[i] == qs[i];
  }

  lemma {:induction false} RunBounded(qs: seq<Request>)
    requires Ticks(qs)
    ensures Bounded(Log(qs)) && Tells(After(qs), Log(qs), LastRead(qs))
  {
    if qs != [] {
      var n := |qs| - 1;
      var front := qs[..n];
      TicksPrefix(qs);
      RunBounded(front);
      StepBounded(After(front), qs[n], Log(front), LastRead(front));
    }
  }

  /** One request adds to the posts met what it meets. */
  lemma MetStep(n: Notes, q: Request, log: seq<Sent>, now: int)
    requires Tells(n, log, now) && !Handle(n, q).response.Success?
    ensures Met(LogStep(n, q, log)) == Met(log) + if MeetsLive(n, q) then 1 else 0
  {
    var log' := LogStep(n, q, log);
    if Handle(n, q).job.Some? {
      assert log'[..|log|] == log;
    } else if log != [] {
      assert log'[..|log| - 1] == log[..|log| - 1];
    }
  }

  /** The log counts every post that met a live code. */
  lemma {:induction false} MetIsLogged(qs: seq<Request>)
    requires Ticks(qs)
    ensures Met(Log(qs)) == LiveMet(qs)
  {
    if qs != [] {
      var front, q := qs[..|qs| - 1], qs[|qs| - 1];
      TicksPrefix(qs);
      MetIsLogged(front);
      RunBounded(front);
      if !SignsIn(front, q) { MetStep(After(front), q, Log(front), LastRead(front)); }
    }
  }

  lemma {:induction false} MetAtMost(log: seq<Sent>)
    requires Bounded(log)
    ensures Met(log) <= 5 * |log|
  {
    if log != [] {
      var front := log[..|log| - 1];
      assert forall i :: 0 <= i < |front| ==> front[i] == log[i];
      MetAtMost(front);
    }
  }

  lemma {:induction false} Spaced(log: seq<Sent>, k: nat)
    requires Bounded(log) && k < |log|
    ensures log[k].at >= log[0].at + 30_000 * k
  {
    if k > 0 { Spaced(log, k - 1); }
  }

  /** Each code sent at least 30 seconds per code before it after the first. */
  predicate HalfMinuteApart(log: seq<Sent>) {
    forall k :: 0 <= k < |log| ==> log[k].at >= log[0].at + 30_000 * k
  }

  lemma LogBounds(log: seq<Sent>)
    requires Bounded(log)
    ensures |log| <= 5 && HalfMinuteApart(log) && Met(log) <= 25
  {
    MetAtMost(log);
    forall k | 0 <= k < |log|
      ensures log[k].at >= log[0].at + 30_000 * k
    {
      Spaced(log, k);
    }
  }

  /** In any session since its last sign-in: at most five codes, the k-th at least
      30(k - 1) seconds after the first; at most 25 posts meet a live code. */
  lemma SessionBounds(qs: seq<Request>)
    requires Ticks(qs)
    ensures |Log(qs)| <= 5 && HalfMinuteApart(Log(qs)) && LiveMet(qs) <= 25
  {
    RunBounded(qs);
    MetIsLogged(qs);
    LogBounds(Log(qs));
  }

  // --- who signs in, and when ------------------------------------------------------------

  /** `s` is what is left of `typed` between characters up to the space. */
  predicate Trims(typed: string, s: string) {
    && (s == "" || (s[0] > ' ' && s[|s| - 1] > ' '))
    && exists i, j :: 0 <= i <= j <= |typed| && typed[i..j] == s && LowOnly(typed[..i]) && LowOnly(typed[j..])
  }

  predicate LowOnly(s: string) { forall i :: 0 <= i < |s| ==> s[i] <= ' ' }

  lemma {:induction false} TrimsLeft(s: string) returns (i: nat)
    ensures i <= |s| && TrimLeft(s) == s[i..] && LowOnly(s[..i]) && (i < |s| ==> s[i] > ' ')
  {
    i := 0;
    if s != "" && s[0] <= ' ' {
      i := TrimsLeft(s[1..]);
      i := i + 1;
      assert s[..i] == [s[0]] + s[1..][..i - 1];
    }
  }

  lemma {:induction false} TrimsRight(s: string) returns (j: nat)
    ensures j <= |s| && TrimRight(s) == s[..j] && LowOnly(s[j..]) && (j > 0 ==> s[j - 1] > ' ')
    decreases |s|
  {
    j := |s|;
    if s != "" && s[|s| - 1] <= ' ' {
      j := TrimsRight(s[..|s| - 1]);
      var front := s[..|s| - 1];
      assert s == front + [s[|s| - 1]];
      assert s[j..] == front[j..] + [s[|s| - 1]];
      assert s[..|s| - 1][..j] == s[..j];
    }
  }

  lemma TypedTrims(typed: string)
    ensures Trims(typed, Typed(Some(typed)))
  {
    var i := TrimsLeft(typed);
    var rest := typed[i..];
    var j := TrimsRight(rest);
    assert typed[i..i + j] == rest[..j] && typed[i + j..] == rest[j..];
    if j > 0 { assert rest[..j][0] == typed[i]; }
  }

  /** The account found under the address the last code went to, if it is the one an
      earlier step knows. */
  function Account(log: seq<Sent>, q: Request): Option<User> {
    if log == [] then None
    else
      match q.accounts(log[|log| - 1].to)
      case Some(u) => if q.known == None || q.known.value.id == u.id then Some(u) else None
      case None => None
  }

  /** The post types the code sent last, within its 600 seconds, after fewer than
      five other posts. */
  predicate Deserves(log: seq<Sent>, q: Request) {
    && q.event.CodePost? && log != []
    && var last := log[|log| - 1];
       && Typed(q.event.given) == last.code
       && q.clock.live - last.at <= 600_000
       && last.posts < 5
  }

  lemma SuccessIs(n: Notes, q: Request, log: seq<Sent>, now: int)
    requires Bounded(log) && Tells(n, log, now)
    ensures Handle(n, q).response.Success? <==> Deserves(log, q) && Account(log, q).Some?
    ensures Handle(n, q).response.Success? ==> Handle(n, q).response == Success(Account(log, q).value)
  {
  }

  /** A request signs in exactly when it deserves to and there is an account, and then it
      signs that account in. */
  lemma SignInIsTheLastCode(qs: seq<Request>, q: Request)
    requires Ticks(qs)
    ensures SignsIn(qs, q) <==> Deserves(Log(qs), q) && Account(Log(qs), q).Some?
    ensures SignsIn(qs, q) ==> Handle(After(qs), q).response == Success(Account(Log(qs), q).value)
  {
    RunBounded(qs);
    SuccessIs(After(qs), q, Log(qs), LastRead(qs));
  }

  /** A wrong code counts against the address the last code went to. */
  lemma FailureCountsAgainst(qs: seq<Request>, q: Request)
    requires Ticks(qs) && Log(qs) != [] && Handle(After(qs), q).response.Failure?
    ensures Handle(After(qs), q).notes.attempted == Some(Log(qs)[|Log(qs)| - 1].to)
  {
    RunBounded(qs);
    FailureIsAgainst(After(qs), q, Log(qs)[|Log(qs)| - 1].to);
  }

  lemma FailureIsAgainst(n: Notes, q: Request, to: string)
    requires n.address == Some(to) && Handle(n, q).response.Failure?
    ensures Handle(n, q).notes.attempted == Some(to)
  {
  }

  /** The `k`-th request signs in; it is sent a code. */
  predicate Signs(qs: seq<Request>, k: nat)
    requires k < |qs|
  {
    SignsIn(qs[..k], qs[k])
  }

  predicate Sends(qs: seq<Request>, k: nat)
    requires k < |qs|
  {
    Handle(After(qs[..k]), qs[k]).job.Some?
  }

  lemma OneBack(qs: seq<Request>, n: nat, j: nat)
    requires n < j <= |qs| && j == n + 1 && Log(qs[..j]) != []
    ensures !Signs(qs, n) && (Sends(qs, n) || Log(qs[..n]) != [])
  {
    assert qs[..j][..j - 1] == qs[..n];
    LogStepFrom(After(qs[..n]), qs[n], Log(qs[..n]));
  }

  lemma LogStepFrom(n: Notes, q: Request, log: seq<Sent>)
    requires LogStep(n, q, log) != []
    ensures !Handle(n, q).response.Success? && (Handle(n, q).job.Some? || log != [])
  {
  }

  /** A code sent since a sign-in was sent by a request since. */
  lemma {:induction false} LogIsSince(qs: seq<Request>, i: nat, j: nat) returns (k: nat)
    requires i < j <= |qs| && Signs(qs, i) && Log(qs[..j]) != []
    ensures i < k < j && Sends(qs, k)
    decreases j
  {
    var n := j - 1;
    OneBack(qs, n, j);
    assert n != i;
    if Sends(qs, n) { k := n; } else { k := LogIsSince(qs, i, n); }
  }

  /** A code signs in at most once: between any two sign-ins of a session a new code was sent. */
  lemma EachSignInNeedsItsCode(qs: seq<Request>, i: nat, j: nat)
    requires i < j < |qs| && Ticks(qs) && Signs(qs, i) && Signs(qs, j)
    ensures exists k :: i < k < j && Sends(qs, k)
  {
    var front := qs[..j];
    assert forall m :: 0 <= m < j ==> front[m] == qs[m];
    SignInIsTheLastCode(front, qs[j]);
    var k := LogIsSince(qs, i, j);
  }

  // --- when a code is sent, and where it goes -----------------------------------------------

  /** A request asks for a code: entering with a known user and no live code, an address,
      or another code for the address at hand. */
  predicate Wants(log: seq<Sent>, q: Request) {
    match q.event
    case Authenticate => q.known.Some? && !LiveCode(log, q.clock.live)
    case AddressPost(typed) => q.known.Some? || typed.Some?
    case ResendPost => log != []
    case CodePost(_) => false
  }

  predicate LiveCode(log: seq<Sent>, now: int) {
    log != [] && log[|log| - 1].posts < 5 && now - log[|log| - 1].at <= 600_000
  }

  /** Where it is to go: a known user's email, or name where that is blank; what was
      typed; the address of the last code. */
  function Address(log: seq<Sent>, q: Request): string
    requires Wants(log, q)
  {
    if q.event.ResendPost? then log[|log| - 1].to
    else if q.known.Some? then
      var u := q.known.value;
      if u.email.Some? && exists i :: 0 <= i < |u.email.value| && !White(u.email.value[i]) then u.email.value else u.username
    else Typed(q.event.typed)
  }

  predicate Mailable(q: Request, address: string) { q.event.AddressPost? ==> 0 < |address| <= 255 }

  /** Fewer than five codes so far, the last at least 30 seconds ago. */
  predicate Free(log: seq<Sent>, now: int) {
    |log| < 5 && (log == [] || now >= log[|log| - 1].at + 30_000)
  }

  lemma GateIs(n: Notes, log: seq<Sent>, now: int, at: int)
    requires Bounded(log) && Tells(n, log, now)
    ensures Gate(n, at) == None <==> Free(log, at)
    ensures !Free(log, at) ==>
      Gate(n, at) == Some(Page(CodeState, Some(if |log| == 5 then Limit else TooSoon((log[|log| - 1].at + 30_000 - at + 999) / 1000))))
  {
  }

  lemma LiveIs(n: Notes, log: seq<Sent>, now: int, at: int)
    requires Bounded(log) && Tells(n, log, now)
    ensures Live(n, at) <==> LiveCode(log, at)
  {
  }

  lemma AddressIs(u: User)
    ensures AddressOf(u) ==
            if u.email.Some? && exists i :: 0 <= i < |u.email.value| && !White(u.email.value[i]) then u.email.value else u.username
  {
  }

  /** A code is sent exactly when one is asked for, for an address that can have one, and
      the gate is open; it goes to that address, and it is the one that was drawn. */
  lemma CodeIsSent(qs: seq<Request>, q: Request)
    requires Ticks(qs)
    ensures var log, job := Log(qs), Handle(After(qs), q).job;
            && (job.Some? <==> Wants(log, q) && Mailable(q, Address(log, q)) && Free(log, q.clock.gate))
            && (job.Some? ==> job == Some(Job(Address(log, q), q.draw)))
  {
    var n, log, now := After(qs), Log(qs), LastRead(qs);
    RunBounded(qs);
    GateIs(n, log, now, q.clock.gate);
    LiveIs(n, log, now, q.clock.live);
    if q.known.Some? { AddressIs(q.known.value); }
  }

  /** A code that is refused is refused with the reason: five were sent, or how many
      seconds are left, no fewer and no more. */
  lemma RefusalTellsTheWait(qs: seq<Request>, q: Request)
    requires Ticks(qs) && Wants(Log(qs), q) && Mailable(q, Address(Log(qs), q)) && !Free(Log(qs), q.clock.gate)
    ensures var log, r := Log(qs), Handle(After(qs), q).response;
            if |log| == 5 then r == Challenge(Page(CodeState, Some(Limit)))
            else exists s: int :: r == Challenge(Page(CodeState, Some(TooSoon(s))))
                   && Free(log, q.clock.gate + 1000 * s) && !Free(log, q.clock.gate + 1000 * (s - 1))
  {
    var n, log, now := After(qs), Log(qs), LastRead(qs);
    RunBounded(qs);
    GateIs(n, log, now, q.clock.gate);
    LiveIs(n, log, now, q.clock.live);
    if q.known.Some? { AddressIs(q.known.value); }
    if |log| < 5 {
      var wait := log[|log| - 1].at + 30_000 - q.clock.gate;
      var s := (wait + 999) / 1000;
      assert 1000 * s >= wait > 1000 * (s - 1);
    }
  }

  /** Entering shows the code form exactly where a live code can be typed. */
  lemma EntryShowsTheForm(qs: seq<Request>, q: Request)
    requires Ticks(qs + [q]) && q.event.Authenticate? && (q.known.Some? ==> LiveCode(Log(qs), q.clock.live))
    ensures Handle(After(qs), q).response ==
            Challenge(Page(if LiveCode(Log(qs), q.clock.page) then CodeState else AddressState, None))
  {
    assert (qs + [q])[..|qs|] == qs;
    TicksPrefix(qs + [q]);
    RunBounded(qs);
    LiveIs(After(qs), Log(qs), LastRead(qs), q.clock.live);
    LiveIs(After(qs), Log(qs), LastRead(qs), q.clock.page);
  }

  /** A post is answered with the code form where a code was sent or could be typed, with
      the address form else: an address nothing can be sent to is refused on it, and so is
      another code before there was a first. */
  lemma PostShowsTheForm(qs: seq<Request>, q: Request)
    requires Ticks(qs)
    ensures var log, r := Log(qs), Handle(After(qs), q).response;
            match q.event
            case Authenticate => true
            case AddressPost(_) =>
              && (!(Wants(log, q) && Mailable(q, Address(log, q))) ==> r == Challenge(Page(AddressState, Some(AddressInvalid))))
              && (Wants(log, q) && Mailable(q, Address(log, q)) && Free(log, q.clock.gate) ==> r == Challenge(Page(CodeState, None)))
            case ResendPost =>
              && (log == [] ==> r == Challenge(Page(AddressState, None)))
              && (log != [] && Free(log, q.clock.gate) ==> r == Challenge(Page(CodeState, None)))
            case CodePost(_) => !SignsIn(qs, q) ==> r == Failure(Page(CodeState, Some(CodeInvalid)))
  {
    var n, log, now := After(qs), Log(qs), LastRead(qs);
    RunBounded(qs);
    GateIs(n, log, now, q.clock.gate);
    if q.known.Some? { AddressIs(q.known.value); }
  }
}

/** The emailed-code sign-in step of `CatenaClientEmailCodeAuthenticator.java`: its
    session notes, handler by handler. */
module SignIn {
  import opened Strings

  const MAX_SENDS := 5
  const MAX_WRONG := 5
  const RESEND_MILLIS := 30 * 1000
  const LIFETIME_MILLIS := 600 * 1000
  const MAX_ADDRESS_LENGTH := 255

  datatype User = User(id: string, email: Option<string>, username: string)

  /** The account the database admits under an address: found there and eligible. */
  type Accounts = string -> Option<User>

  /** The notes the step keeps in the session, with the lockout's. */
  datatype Notes = Notes(address: Option<string>, code: Option<string>, issuedAt: Option<int>,
                         sends: Option<int>, wrong: Option<int>, attempted: Option<string>)

  const FRESH := Notes(None, None, None, None, None, None)

  datatype Event = Authenticate | AddressPost(typed: Option<string>) | ResendPost | CodePost(given: Option<string>)

  /** The clock, read at up to four points of one request, in milliseconds. */
  datatype Clock = Clock(live: int, gate: int, send: int, page: int)

  /** One request: what is posted, what the clock reads, the code the generator
      draws, the user an earlier step knows, and the accounts as they are then. */
  datatype Request = Request(event: Event, clock: Clock, draw: string, known: Option<User>, accounts: Accounts)

  datatype Message = AddressInvalid | CodeInvalid | TooSoon(seconds: int) | Limit

  datatype State = AddressState | CodeState

  datatype Page = Page(state: State, error: Option<Message>)

  /** How the flow goes on; a mail job handed over, if any. */
  datatype Response = Challenge(page: Page) | Failure(page: Page) | Success(user: User)

  datatype Job = Job(address: string, code: string)

  datatype Outcome = Outcome(notes: Notes, response: Response, job: Option<Job>)

  // --- what the handlers share ---------------------------------------------------

  function Parse(note: Option<int>): int { match note case Some(n) => n case None => 0 }

  function TrimLeft(s: string): string { if s != "" && s[0] <= ' ' then TrimLeft(s[1..]) else s }

  function TrimRight(s: string): string {
    if s != "" && s[|s| - 1] <= ' ' then TrimRight(s[..|s| - 1]) else s
  }

  /** The posted value, trimmed; "" when there is none. */
  function Typed(s: Option<string>): string { match s case Some(v) => TrimRight(TrimLeft(v)) case None => "" }

  /** Java's `Character.isWhitespace`; `trim` cuts every character up to the space. */
  predicate White(c: char) {
    || c == ' ' || '\t' <= c <= '\r' || '\U{1C}' <= c <= '\U{1F}' || c == '\U{1680}'
    || '\U{2000}' <= c <= '\U{2006}' || '\U{2008}' <= c <= '\U{200A}' || c == '\U{2028}' || c == '\U{2029}'
    || c == '\U{205F}' || c == '\U{3000}'
  }

  /** A known user's email, else their username. */
  function AddressOf(u: User): string {
    match u.email
    case Some(e) => if (forall c :: c in e ==> White(c)) then u.username else e
    case None => u.username
  }

  function Live(n: Notes, now: int): bool {
    n.code.Some? && Parse(n.issuedAt) != 0 && now - Parse(n.issuedAt) <= LIFETIME_MILLIS
  }

  /** The page refusing a new code yet, or None. */
  function Gate(n: Notes, now: int): Option<Page> {
    if Parse(n.sends) >= MAX_SENDS then Some(Page(CodeState, Some(Limit)))
    else
      var wait := Parse(n.issuedAt) + RESEND_MILLIS - now;
      if Parse(n.issuedAt) != 0 && wait > 0 then Some(Page(CodeState, Some(TooSoon((wait + 999) / 1000)))) else None
  }

  function Send(n: Notes, address: string, code: string, now: int): Notes {
    Notes(Some(address), Some(code), Some(now), Some(Parse(n.sends) + 1), Some(0), Some(address))
  }

  /** The one answer to a code that does not sign in. */
  function Wrong(n: Notes): Notes {
    var wrongs := Parse(n.wrong) + 1;
    n.(attempted := if n.address.Some? then n.address else n.attempted,
       wrong := Some(wrongs),
       code := if wrongs >= MAX_WRONG then None else n.code)
  }

  function GateOrSend(n: Notes, q: Request, address: string): Outcome {
    match Gate(n, q.clock.gate)
    case Some(page) => Outcome(n, Challenge(page), None)
    case None =>
      Outcome(Send(n, address, q.draw, q.clock.send), Challenge(Page(CodeState, None)), Some(Job(address, q.draw)))
  }

  /** The user a right code signs in, if the database admits one. */
  function Admits(n: Notes, q: Request): Option<User> {
    if n.address == None then None
    else
      match q.accounts(n.address.value)
      case Some(u) => if q.known.Some? && q.known.value.id != u.id then None else Some(u)
      case None => None
  }

  /** A code post that meets a live code. */
  predicate MeetsLive(n: Notes, q: Request) {
    q.event.CodePost? && n.code.Some? && n.address.Some? && Live(n, q.clock.live)
  }

  /** ... and types it. */
  predicate TypesIt(n: Notes, q: Request) { MeetsLive(n, q) && Typed(q.event.given) == n.code.value }

  function Handle(n: Notes, q: Request): Outcome {
    match q.event
    case Authenticate =>
      if q.known.Some? && !Live(n, q.clock.live) then
        var out := GateOrSend(n, q, AddressOf(q.known.value));
        if out.job.None? then out
        else out.(response := Challenge(Page(if Live(out.notes, q.clock.page) then CodeState else AddressState, None)))
      else Outcome(n, Challenge(Page(if Live(n, q.clock.page) then CodeState else AddressState, None)), None)
    case AddressPost(typed) =>
      var address := if q.known.Some? then AddressOf(q.known.value) else Typed(typed);
      if address == "" || |address| > MAX_ADDRESS_LENGTH then
        Outcome(n, Challenge(Page(AddressState, Some(AddressInvalid))), None)
      else GateOrSend(n, q, address)
    case ResendPost =>
      (match n.address
       case None => Outcome(n, Challenge(Page(AddressState, None)), None)
       case Some(address) => GateOrSend(n, q, address))
    case CodePost(_) =>
      if TypesIt(n, q) && Admits(n, q).Some? then
        Outcome(FRESH.(attempted := n.attempted), Success(Admits(n, q).value), None)
      else Outcome(Wrong(n), Failure(Page(CodeState, Some(CodeInvalid))), None)
  }

  // --- the authenticator over a session it changes ---------------------------------

  class Session {
    var address: Option<string>
    var code: Option<string>
    var issuedAt: Option<int>
    var sends: Option<int>
    var wrong: Option<int>
    var attempted: Option<string>
    // The mail jobs handed to the background.
    var jobs: seq<Job>

    function Now(): Notes
      reads this
    {
      Notes(address, code, issuedAt, sends, wrong, attempted)
    }

    constructor ()
      ensures Now() == FRESH && jobs == []
    {
      address, code, issuedAt, sends, wrong, attempted, jobs := None, None, None, None, None, None, [];
    }

    method SendCode(to: string, draw: string, now: int)
      modifies this
      ensures Now() == Send(old(Now()), to, draw, now) && jobs == old(jobs) + [Job(to, draw)]
    {
      address := Some(to);
      code := Some(draw);
      issuedAt := Some(now);
      sends := Some(Parse(sends) + 1);
      wrong := Some(0);
      attempted := Some(to);
      jobs := jobs + [Job(to, draw)];
    }

    method WrongCode() returns (r: Response)
      modifies this
      ensures Now() == Wrong(old(Now())) && jobs == old(jobs) && r == Failure(Page(CodeState, Some(CodeInvalid)))
    {
      if address.Some? {
        attempted := address;
      }
      var wrongs := Parse(wrong) + 1;
      wrong := Some(wrongs);
      if wrongs >= MAX_WRONG {
        code := None;
      }
      return Failure(Page(CodeState, Some(CodeInvalid)));
    }

    method GateThenSend(q: Request, to: string) returns (r: Response)
      modifies this
      ensures var out := GateOrSend(old(Now()), q, to);
              Now() == out.notes && r == out.response && Handed(old(jobs), out.job)
    {
      var refused := Gate(Now(), q.clock.gate);
      if refused.Some? { return Challenge(refused.value); }
      SendCode(to, q.draw, q.clock.send);
      return Challenge(Page(CodeState, None));
    }

    predicate Handed(before: seq<Job>, job: Option<Job>)
      reads this
    {
      jobs == before + (match job case Some(j) => [j] case None => [])
    }

    method EnterStep(q: Request) returns (r: Response)
      requires q.event.Authenticate?
      modifies this
      ensures var out := Handle(old(Now()), q);
              Now() == out.notes && r == out.response && Handed(old(jobs), out.job)
    {
      if q.known.Some? && !Live(Now(), q.clock.live) {
        var refused := Gate(Now(), q.clock.gate);
        if refused.Some? { return Challenge(refused.value); }
        SendCode(AddressOf(q.known.value), q.draw, q.clock.send);
      }
      return Challenge(Page(if Live(Now(), q.clock.page) then CodeState else AddressState, None));
    }

    method PostAddress(q: Request) returns (r: Response)
      requires q.event.AddressPost?
      modifies this
      ensures var out := Handle(old(Now()), q);
              Now() == out.notes && r == out.response && Handed(old(jobs), out.job)
    {
      var to := if q.known.Some? then AddressOf(q.known.value) else Typed(q.event.typed);
      if to == "" || |to| > MAX_ADDRESS_LENGTH { return Challenge(Page(AddressState, Some(AddressInvalid))); }
      r := GateThenSend(q, to);
    }

    method PostResend(q: Request) returns (r: Response)
      requires q.event.ResendPost?
      modifies this
      ensures var out := Handle(old(Now()), q);
              Now() == out.notes && r == out.response && Handed(old(jobs), out.job)
    {
      if address == None { return Challenge(Page(AddressState, None)); }
      r := GateThenSend(q, address.value);
    }

    method PostCode(q: Request) returns (r: Response)
      requires q.event.CodePost?
      modifies this
      ensures var out := Handle(old(Now()), q);
              Now() == out.notes && r == out.response && Handed(old(jobs), out.job)
    {
      if code == None || address == None || !Live(Now(), q.clock.live) || Typed(q.event.given) != code.value {
        r := WrongCode();
        return;
      }
      var user := q.accounts(address.value);
      if user == None || (q.known.Some? && q.known.value.id != user.value.id) {
        r := WrongCode();
        return;
      }
      address, code, issuedAt, sends, wrong := None, None, None, None, None;
      return Success(user.value);
    }

    /** One request to the step. */
    method Action(q: Request) returns (r: Response)
      modifies this
      ensures var out := Handle(old(Now()), q);
              Now() == out.notes && r == out.response && Handed(old(jobs), out.job)
    {
      match q.event
      case Authenticate => r := EnterStep(q);
      case AddressPost(_) => r := PostAddress(q);
      case ResendPost => r := PostResend(q);
      case CodePost(_) => r := PostCode(q);
    }
  }
}

/** The DNS response parser of `public_https.py`. */
module Dns {
  import opened Strings

  newtype Byte = b: int | 0 <= b < 256

  const TYPE_A := 1
  const CLASS_IN := 1
  const NXDOMAIN := 3

  datatype Address = Address(bytes: seq<Byte>)

  /** The A records in order, nothing usable, or the name does not exist. */
  datatype Answer = Records(found: seq<Address>) | Unusable | NoSuchName

  function U16(data: seq<Byte>, i: nat): nat
    requires i + 2 <= |data|
  {
    data[i] as nat * 256 + data[i + 1] as nat
  }

  /** Past the name at `i`; None where the source reads past the end. A length byte
      with its two top bits set, 0xC0 or more, starts a pointer. */
  function SkipName(data: seq<Byte>, i: nat): Option<nat>
    decreases if i < |data| then |data| - i else 0
  {
    if i >= |data| then None
    else if data[i] == 0 then Some(i + 1)
    else if data[i] >= 0xC0 then Some(i + 2)
    else SkipName(data, i + data[i] as nat + 1)
  }

  function SkipQuestions(data: seq<Byte>, i: nat, n: nat): Option<nat>
    decreases n
  {
    if n == 0 then Some(i)
    else match SkipName(data, i) case None => None case Some(j) => SkipQuestions(data, j + 4, n - 1)
  }

  /** The address in a record's data, where it is an IN A record. */
  function Kept(rtype: nat, rclass: nat, data: seq<Byte>): seq<Address> {
    if rtype == TYPE_A && rclass == CLASS_IN && |data| == 4 then [Address(data)] else []
  }

  /** What one turn of the record loop reads, and where the next one starts. */
  datatype Turn = Turn(kept: seq<Address>, next: nat)

  function ReadRecord(data: seq<Byte>, i: nat): Option<Turn> {
    match SkipName(data, i)
    case None => None
    case Some(j) =>
      if j + 10 > |data| || j + 10 + U16(data, j + 8) > |data| then None
      else
        var end := j + 10 + U16(data, j + 8);
        Some(Turn(Kept(U16(data, j), U16(data, j + 2), data[j + 10..end]), end))
  }

  function Before(kept: seq<Address>, rest: Option<seq<Address>>): Option<seq<Address>> {
    match rest case None => None case Some(more) => Some(kept + more)
  }

  /** `n` records from `i` on: the IN A addresses among them. */
  function Addresses(data: seq<Byte>, i: nat, n: nat): Option<seq<Address>>
    decreases n
  {
    if n == 0 then Some([])
    else match ReadRecord(data, i) case None => None case Some(turn) => Before(turn.kept, Addresses(data, turn.next, n - 1))
  }

  function Parse(data: seq<Byte>, id: nat): Answer {
    if |data| < 12 || U16(data, 0) != id then Unusable
    else if U16(data, 2) % 16 == NXDOMAIN then NoSuchName
    else if U16(data, 2) % 16 != 0 then Unusable
    else
      match SkipQuestions(data, 12, U16(data, 4))
      case None => Unusable
      case Some(i) =>
        match Addresses(data, i, U16(data, 6))
        case None => Unusable
        case Some(found) => Records(found)
  }

  // --- the loops of the source -----------------------------------------------------

  method Skip(data: seq<Byte>, start: nat) returns (end: Option<nat>)
    ensures end == SkipName(data, start)
  {
    var i: nat := start;
    while i < |data|
      invariant SkipName(data, i) == SkipName(data, start)
      decreases |data| - i
    {
      var length := data[i];
      if length == 0 { return Some(i + 1); }
      if length >= 0xC0 { return Some(i + 2); }
      i := i + length as nat + 1;
    }
    return None;
  }

  lemma QuestionStep(data: seq<Byte>, i: nat, j: nat, n: nat)
    requires n > 0 && SkipName(data, i) == Some(j)
    ensures SkipQuestions(data, i, n) == SkipQuestions(data, j + 4, n - 1)
  {
  }

  lemma BeforeTwice(a: seq<Address>, b: seq<Address>, rest: Option<seq<Address>>)
    ensures Before(a, Before(b, rest)) == Before(a + b, rest)
  {
    if rest.Some? {
      assert a + (b + rest.value) == (a + b) + rest.value;
    }
  }

  lemma AddressTurn(data: seq<Byte>, i: nat, n: nat, turn: Turn)
    requires n > 0 && ReadRecord(data, i) == Some(turn)
    ensures Addresses(data, i, n) == Before(turn.kept, Addresses(data, turn.next, n - 1))
  {
  }

  lemma NextTurn(data: seq<Byte>, i: nat, n: nat, found: seq<Address>, turn: Turn)
    requires n > 0 && ReadRecord(data, i) == Some(turn)
    ensures Before(found, Addresses(data, i, n)) == Before(found + turn.kept, Addresses(data, turn.next, n - 1))
  {
    AddressTurn(data, i, n, turn);
    BeforeTwice(found, turn.kept, Addresses(data, turn.next, n - 1));
  }

  /** One turn of the record loop: the offset past the record, and its address if kept. */
  method OneRecord(data: seq<Byte>, start: nat) returns (turn: Option<Turn>)
    ensures turn == ReadRecord(data, start)
  {
    var end := Skip(data, start);
    if end == None { return None; }
    var i := end.value;
    if i + 10 > |data| { return None; }
    var rtype, rclass, length := U16(data, i), U16(data, i + 2), U16(data, i + 8);
    i := i + 10;
    if i + length > |data| { return None; }
    var kept: seq<Address> := [];
    if rtype == TYPE_A && rclass == CLASS_IN && length == 4 {
      kept := [Address(data[i..i + 4])];
    }
    return Some(Turn(kept, i + length));
  }

  method ParseResponse(data: seq<Byte>, id: nat) returns (r: Answer)
    ensures r == Parse(data, id)
  {
    if |data| < 12 || U16(data, 0) != id { return Unusable; }
    var rcode := U16(data, 2) % 16;
    if rcode == NXDOMAIN { return NoSuchName; }
    if rcode != 0 { return Unusable; }
    var questions, answers := U16(data, 4), U16(data, 6);
    var i: nat := 12;
    for n := 0 to questions
      invariant SkipQuestions(data, i, questions - n) == SkipQuestions(data, 12, questions)
    {
      var end := Skip(data, i);
      if end == None { return Unusable; }
      QuestionStep(data, i, end.value, questions - n);
      i := end.value + 4;
    }
    var found: seq<Address> := [];
    ghost var all := Addresses(data, i, answers);
    assert all.Some? ==> found + all.value == all.value;
    for n := 0 to answers
      invariant all == Before(found, Addresses(data, i, answers - n))
    {
      var turn := OneRecord(data, i);
      if turn == None { return Unusable; }
      NextTurn(data, i, answers - n, found, turn.value);
      found, i := found + turn.value.kept, turn.value.next;
    }
    return Records(found);
  }

  // --- responses, and their bytes (RFC 1035, sections 4.1.1 to 4.1.4) --------------------

  const WORD := 0x1_0000

  type Word = n: nat | n < WORD

  type Label = l: seq<Byte> | 1 <= |l| <= 63 witness [0]

  type Offset = n: nat | n < 0x4000

  /** A name ends with a root label or a pointer. */
  datatype NameEnd = Root | Pointer(offset: Offset)

  datatype Name = Name(labels: seq<Label>, end: NameEnd)

  datatype Question = Question(name: Name, qtype: Word, qclass: Word)

  type Rdata = d: seq<Byte> | |d| < WORD

  datatype Record = Record(name: Name, rtype: Word, rclass: Word, ttlHigh: Word, ttlLow: Word, data: Rdata)

  datatype Response =
    Response(id: Word, flags: Word, questions: seq<Question>, answers: seq<Record>, authority: Word, additional: Word)

  predicate Valid(r: Response) {
    |r.questions| < WORD && |r.answers| < WORD
  }

  function Two(n: Word): seq<Byte> {
    [(n / 256) as Byte, (n % 256) as Byte]
  }

  function Labels(labels: seq<Label>): seq<Byte> {
    if labels == [] then [] else [|labels[0]| as Byte] + labels[0] + Labels(labels[1..])
  }

  function End(e: NameEnd): seq<Byte> {
    match e case Root => [0] case Pointer(offset) => [(0xC0 + offset / 256) as Byte, (offset % 256) as Byte]
  }

  function PrintName(n: Name): seq<Byte> {
    Labels(n.labels) + End(n.end)
  }

  /** Type, class, time to live and length of the data. */
  function Fixed(a: Record): (r: seq<Byte>)
    ensures |r| == 10
  {
    Two(a.rtype) + Two(a.rclass) + Two(a.ttlHigh) + Two(a.ttlLow) + Two(|a.data|)
  }

  function PrintRecord(a: Record): seq<Byte>
  {
    PrintName(a.name) + Fixed(a) + a.data
  }

  function PrintQuestion(q: Question): seq<Byte>
  {
    PrintName(q.name) + (Two(q.qtype) + Two(q.qclass))
  }

  function PrintQuestions(qs: seq<Question>): seq<Byte>
  {
    if qs == [] then [] else PrintQuestion(qs[0]) + PrintQuestions(qs[1..])
  }

  function PrintRecords(rs: seq<Record>): seq<Byte>
  {
    if rs == [] then [] else PrintRecord(rs[0]) + PrintRecords(rs[1..])
  }

  function Header(r: Response): seq<Byte>
    requires Valid(r)
  {
    Two(r.id) + Two(r.flags) + Two(|r.questions|) + Two(|r.answers|) + Two(r.authority) + Two(r.additional)
  }

  /** Header, questions and answers; a message may go on with its other sections. */
  function Print(r: Response): seq<Byte>
    requires Valid(r)
  {
    Header(r) + PrintQuestions(r.questions) + PrintRecords(r.answers)
  }

  /** The IN A addresses of the answers, in order. */
  function InA(rs: seq<Record>): seq<Address> {
    if rs == [] then [] else (if IsAddress(rs[0]) then [Address(rs[0].data)] else []) + InA(rs[1..])
  }

  /** Type A is 1, class IN is 1, and an IPv4 address is four bytes. */
  predicate IsAddress(a: Record) { a.rtype == 1 && a.rclass == 1 && |a.data| == 4 }

  lemma KeptIs(a: Record)
    ensures Kept(a.rtype, a.rclass, a.data) == if IsAddress(a) then [Address(a.data)] else []
  {
  }

  // --- reading what was printed ---------------------------------------------------------

  /** `bytes` stands in `data` at `i`. */
  predicate Stands(data: seq<Byte>, i: nat, bytes: seq<Byte>) {
    i <= |data| && bytes <= data[i..]
  }

  lemma StandsSplit(data: seq<Byte>, i: nat, a: seq<Byte>, b: seq<Byte>)
    requires Stands(data, i, a + b)
    ensures Stands(data, i, a) && Stands(data, i + |a|, b)
  {
    var rest := data[i..];
    assert rest[|a|..] == data[i + |a|..];
    assert forall k :: 0 <= k < |a| ==> (a + b)[k] == a[k];
    assert forall k :: 0 <= k < |b| ==> rest[|a|..][k] == rest[|a| + k] == (a + b)[|a| + k] == b[k];
  }

  lemma StandsAt(data: seq<Byte>, i: nat, bytes: seq<Byte>, k: nat)
    requires Stands(data, i, bytes) && k < |bytes|
    ensures data[i + k] == bytes[k]
  {
    assert data[i..][k] == bytes[k];
  }

  lemma LabelRead(data: seq<Byte>, i: nat, word: Label, j: nat)
    requires Stands(data, i, [|word| as Byte] + word) && j == i + 1 + |word|
    ensures SkipName(data, i) == SkipName(data, j)
  {
    StandsAt(data, i, [|word| as Byte] + word, 0);
  }

  /** A name's first label, and the name behind it. */
  function LabelOf(n: Name): seq<Byte>
    requires n.labels != []
  {
    [|n.labels[0]| as Byte] + n.labels[0]
  }

  function BehindLabel(n: Name): Name
    requires n.labels != []
  {
    Name(n.labels[1..], n.end)
  }

  lemma NameSplit(data: seq<Byte>, i: nat, n: Name)
    requires n.labels != [] && Stands(data, i, PrintName(n))
    ensures Stands(data, i, LabelOf(n)) && Stands(data, i + |LabelOf(n)|, PrintName(BehindLabel(n)))
    ensures |PrintName(n)| == |LabelOf(n)| + |PrintName(BehindLabel(n))|
  {
    StandsSplit(data, i, LabelOf(n), PrintName(BehindLabel(n)));
  }

  lemma FirstLabelRead(data: seq<Byte>, i: nat, n: Name) returns (j: nat)
    requires n.labels != [] && Stands(data, i, PrintName(n))
    ensures Stands(data, j, PrintName(BehindLabel(n))) && j + |PrintName(BehindLabel(n))| == i + |PrintName(n)|
    ensures SkipName(data, i) == SkipName(data, j)
  {
    NameSplit(data, i, n);
    j := i + |LabelOf(n)|;
    LabelRead(data, i, n.labels[0], j);
  }

  lemma EndRead(data: seq<Byte>, i: nat, n: Name)
    requires n.labels == [] && Stands(data, i, PrintName(n))
    ensures SkipName(data, i) == Some(i + |PrintName(n)|)
  {
    assert PrintName(n) == End(n.end);
    StandsAt(data, i, End(n.end), 0);
  }

  lemma {:induction false} NameRead(data: seq<Byte>, i: nat, n: Name)
    requires Stands(data, i, PrintName(n))
    ensures SkipName(data, i) == Some(i + |PrintName(n)|)
    decreases |n.labels|
  {
    if n.labels == [] {
      EndRead(data, i, n);
    } else {
      var j := FirstLabelRead(data, i, n);
      NameRead(data, j, BehindLabel(n));
    }
  }

  lemma WordRead(data: seq<Byte>, i: nat, n: Word)
    requires Stands(data, i, Two(n))
    ensures i + 2 <= |data| && U16(data, i) == n
  {
    StandsAt(data, i, Two(n), 0);
    StandsAt(data, i, Two(n), 1);
  }

  lemma QuestionsSplit(data: seq<Byte>, i: nat, qs: seq<Question>)
    requires qs != [] && Stands(data, i, PrintQuestions(qs))
    ensures Stands(data, i, PrintQuestion(qs[0])) && Stands(data, i + |PrintQuestion(qs[0])|, PrintQuestions(qs[1..]))
    ensures |PrintQuestions(qs)| == |PrintQuestion(qs[0])| + |PrintQuestions(qs[1..])|
  {
    StandsSplit(data, i, PrintQuestion(qs[0]), PrintQuestions(qs[1..]));
  }

  lemma QuestionRead(data: seq<Byte>, i: nat, q: Question)
    requires Stands(data, i, PrintQuestion(q))
    ensures SkipName(data, i) == Some(i + |PrintQuestion(q)| - 4)
  {
    StandsSplit(data, i, PrintName(q.name), Two(q.qtype) + Two(q.qclass));
    NameRead(data, i, q.name);
  }

  lemma FirstQuestionRead(data: seq<Byte>, i: nat, qs: seq<Question>)
    requires qs != [] && Stands(data, i, PrintQuestions(qs))
    ensures Stands(data, i + |PrintQuestion(qs[0])|, PrintQuestions(qs[1..]))
    ensures |PrintQuestions(qs)| == |PrintQuestion(qs[0])| + |PrintQuestions(qs[1..])|
    ensures SkipQuestions(data, i, |qs|) == SkipQuestions(data, i + |PrintQuestion(qs[0])|, |qs[1..]|)
  {
    QuestionsSplit(data, i, qs);
    QuestionSkipped(data, i, qs[0], |qs|, |qs[1..]|);
  }

  lemma {:induction false} QuestionsRead(data: seq<Byte>, i: nat, qs: seq<Question>)
    requires Stands(data, i, PrintQuestions(qs))
    ensures SkipQuestions(data, i, |qs|) == Some(i + |PrintQuestions(qs)|)
    decreases |qs|
  {
    if qs != [] {
      FirstQuestionRead(data, i, qs);
      QuestionsRead(data, i + |PrintQuestion(qs[0])|, qs[1..]);
      assert i + |PrintQuestion(qs[0])| + |PrintQuestions(qs[1..])| == i + |PrintQuestions(qs)|;
    }
  }

  lemma FixedRead(data: seq<Byte>, j: nat, a: Record)
    requires Stands(data, j, Fixed(a))
    ensures j + 10 <= |data| && U16(data, j) == a.rtype && U16(data, j + 2) == a.rclass && U16(data, j + 8) == |a.data|
  {
    var front := Two(a.rtype) + Two(a.rclass) + Two(a.ttlHigh) + Two(a.ttlLow);
    StandsSplit(data, j, front, Two(|a.data|));
    StandsSplit(data, j, Two(a.rtype) + Two(a.rclass) + Two(a.ttlHigh), Two(a.ttlLow));
    StandsSplit(data, j, Two(a.rtype) + Two(a.rclass), Two(a.ttlHigh));
    StandsSplit(data, j, Two(a.rtype), Two(a.rclass));
    WordRead(data, j, a.rtype);
    WordRead(data, j + 2, a.rclass);
    WordRead(data, j + 8, |a.data|);
  }

  /** What the loop needs to know of one record that stands at `i`. */
  predicate RecordAt(data: seq<Byte>, i: nat, j: nat, a: Record)
  {
    && SkipName(data, i) == Some(j)
    && j + 10 <= |data| && U16(data, j) == a.rtype && U16(data, j + 2) == a.rclass && U16(data, j + 8) == |a.data|
  }

  lemma FrontRead(data: seq<Byte>, i: nat, a: Record)
    requires Stands(data, i, PrintName(a.name) + Fixed(a))
    ensures RecordAt(data, i, i + |PrintName(a.name)|, a)
  {
    StandsSplit(data, i, PrintName(a.name), Fixed(a));
    NameRead(data, i, a.name);
    FixedRead(data, i + |PrintName(a.name)|, a);
  }

  /** A record that stands at `i` is one turn of the loop. */
  lemma RecordRead(data: seq<Byte>, i: nat, a: Record)
    requires Stands(data, i, PrintRecord(a))
    ensures ReadRecord(data, i) == Some(Turn(Kept(a.rtype, a.rclass, a.data), i + |PrintRecord(a)|))
  {
    var j := i + |PrintName(a.name)|;
    StandsSplit(data, i, PrintName(a.name) + Fixed(a), a.data);
    FrontRead(data, i, a);
    assert data[j + 10..j + 10 + |a.data|] == a.data;
  }

  lemma RecordsSplit(data: seq<Byte>, i: nat, rs: seq<Record>)
    requires rs != [] && Stands(data, i, PrintRecords(rs))
    ensures Stands(data, i, PrintRecord(rs[0])) && Stands(data, i + |PrintRecord(rs[0])|, PrintRecords(rs[1..]))
  {
    StandsSplit(data, i, PrintRecord(rs[0]), PrintRecords(rs[1..]));
  }

  lemma RecordsTurn(data: seq<Byte>, i: nat, rs: seq<Record>) returns (next: nat)
    requires rs != [] && Stands(data, i, PrintRecords(rs))
    ensures ReadRecord(data, i) == Some(Turn(Kept(rs[0].rtype, rs[0].rclass, rs[0].data), next))
    ensures Stands(data, next, PrintRecords(rs[1..]))
  {
    RecordsSplit(data, i, rs);
    RecordRead(data, i, rs[0]);
    next := i + |PrintRecord(rs[0])|;
  }

  lemma OneMore(data: seq<Byte>, i: nat, next: nat, rs: seq<Record>)
    requires rs != [] && ReadRecord(data, i) == Some(Turn(Kept(rs[0].rtype, rs[0].rclass, rs[0].data), next))
    requires Addresses(data, next, |rs[1..]|) == Some(InA(rs[1..]))
    ensures Addresses(data, i, |rs|) == Some(InA(rs))
  {
    assert |rs[1..]| == |rs| - 1;
    KeptIs(rs[0]);
    AddressTurn(data, i, |rs|, Turn(Kept(rs[0].rtype, rs[0].rclass, rs[0].data), next));
  }

  lemma {:induction false} RecordsRead(data: seq<Byte>, i: nat, rs: seq<Record>)
    requires Stands(data, i, PrintRecords(rs))
    ensures Addresses(data, i, |rs|) == Some(InA(rs))
    decreases |rs|
  {
    if rs != [] {
      var next := RecordsTurn(data, i, rs);
      RecordsRead(data, next, rs[1..]);
      OneMore(data, i, next, rs);
    }
  }

  lemma HeaderRead(data: seq<Byte>, r: Response)
    requires Valid(r) && Stands(data, 0, Header(r))
    ensures |data| >= 12 && U16(data, 0) == r.id && U16(data, 2) == r.flags
    ensures U16(data, 4) == |r.questions| && U16(data, 6) == |r.answers|
  {
    var id, flags, qs, rs, au, ad := Two(r.id), Two(r.flags), Two(|r.questions|), Two(|r.answers|), Two(r.authority), Two(r.additional);
    StandsSplit(data, 0, id + flags + qs + rs + au, ad);
    StandsSplit(data, 0, id + flags + qs + rs, au);
    StandsSplit(data, 0, id + flags + qs, rs);
    StandsSplit(data, 0, id + flags, qs);
    StandsSplit(data, 0, id, flags);
    WordRead(data, 0, r.id);
    WordRead(data, 2, r.flags);
    WordRead(data, 4, |r.questions|);
    WordRead(data, 6, |r.answers|);
  }

  /** Past a good header and the questions, only the answers decide. */
  lemma ParseFrom(data: seq<Byte>, id: nat, i: nat)
    requires |data| >= 12 && U16(data, 0) == id && U16(data, 2) % 16 == 0
    requires SkipQuestions(data, 12, U16(data, 4)) == Some(i)
    ensures Parse(data, id) ==
            match Addresses(data, i, U16(data, 6)) case None => Unusable case Some(found) => Records(found)
  {
  }

  lemma FrontOfMessage(data: seq<Byte>, r: Response) returns (i: nat)
    requires Valid(r) && Stands(data, 0, Print(r))
    ensures |data| >= 12 && U16(data, 0) == r.id && U16(data, 2) == r.flags && U16(data, 6) == |r.answers|
    ensures SkipQuestions(data, 12, U16(data, 4)) == Some(i) && Stands(data, i, PrintRecords(r.answers))
  {
    i := 12 + |PrintQuestions(r.questions)|;
    PartsStand(data, r);
    HeaderRead(data, r);
    QuestionsRead(data, 12, r.questions);
  }

  lemma PartsStand(data: seq<Byte>, r: Response)
    requires Valid(r) && Stands(data, 0, Print(r))
    ensures Stands(data, 0, Header(r)) && Stands(data, 12, PrintQuestions(r.questions))
    ensures Stands(data, 12 + |PrintQuestions(r.questions)|, PrintRecords(r.answers))
  {
    var head, questions, answers := Header(r), PrintQuestions(r.questions), PrintRecords(r.answers);
    assert |head| == 12;
    StandsSplit(data, 0, head + questions, answers);
    StandsSplit(data, 0, head, questions);
  }

  /** Every well-formed response to this query that reports no error gives exactly
      its IN A addresses, in order, whatever its other sections hold. */
  lemma WellFormedIsRead(r: Response, tail: seq<Byte>)
    requires Valid(r) && r.flags % 16 == 0
    ensures Parse(Print(r) + tail, r.id) == Records(InA(r.answers))
  {
    var data := Print(r) + tail;
    assert Stands(data, 0, Print(r));
    var i := FrontOfMessage(data, r);
    RecordsRead(data, i, r.answers);
    ParseFrom(data, r.id, i);
  }

  /** A response that reports an error gives what its code says, 3 being that there is no
      such name; one with another id gives nothing. */
  lemma ErrorsAreRead(r: Response, tail: seq<Byte>, id: nat)
    requires Valid(r)
    ensures r.flags % 16 != 0 ==> Parse(Print(r) + tail, r.id) == if r.flags % 16 == 3 then NoSuchName else Unusable
    ensures id != r.id ==> Parse(Print(r) + tail, id) == Unusable
  {
    var data := Print(r) + tail;
    assert Stands(data, 0, Print(r));
    PartsStand(data, r);
    HeaderRead(data, r);
  }

  // --- truncated responses ----------------------------------------------------------------

  /** From `i` on, `data` holds a proper beginning of `bytes`. */
  predicate Cut(data: seq<Byte>, i: nat, bytes: seq<Byte>) {
    i <= |data| < i + |bytes| && data[i..] <= bytes
  }

  /** A cut falls in the first part, or leaves it whole and falls in the second. */
  lemma CutSplit(data: seq<Byte>, i: nat, a: seq<Byte>, b: seq<Byte>)
    requires Cut(data, i, a + b)
    ensures Cut(data, i, a) || (Stands(data, i, a) && Cut(data, i + |a|, b))
  {
    var part := data[i..];
    if |part| < |a| {
      assert forall k :: 0 <= k < |part| ==> (a + b)[k] == a[k];
    } else {
      assert part[|a|..] == data[i + |a|..];
      assert forall k :: 0 <= k < |a| ==> part[k] == (a + b)[k] == a[k];
      assert forall k :: 0 <= k < |part| - |a| ==> part[|a|..][k] == part[|a| + k] == (a + b)[|a| + k] == b[k];
    }
  }

  lemma HeadCut(data: seq<Byte>, i: nat, word: Label)
    requires Cut(data, i, [|word| as Byte] + word)
    ensures SkipName(data, i) == None
  {
    if i < |data| {
      assert data[i] == data[i..][0] == ([|word| as Byte] + word)[0];
      assert i + data[i] as nat + 1 > |data|;
    }
  }

  lemma NameCutSplit(data: seq<Byte>, i: nat, n: Name)
    requires n.labels != [] && Cut(data, i, PrintName(n))
    ensures Cut(data, i, LabelOf(n)) || (Stands(data, i, LabelOf(n)) && Cut(data, i + |LabelOf(n)|, PrintName(BehindLabel(n))))
    ensures |PrintName(n)| == |LabelOf(n)| + |PrintName(BehindLabel(n))| && |PrintName(BehindLabel(n))| > 0
  {
    CutSplit(data, i, LabelOf(n), PrintName(BehindLabel(n)));
  }

  lemma QuestionsCutSplit(data: seq<Byte>, i: nat, qs: seq<Question>)
    requires qs != [] && Cut(data, i, PrintQuestions(qs))
    ensures var first, rest := PrintQuestion(qs[0]), PrintQuestions(qs[1..]);
            (Cut(data, i, first) || (Stands(data, i, first) && Cut(data, i + |first|, rest))) && |PrintQuestions(qs)| == |first| + |rest|
  {
    CutSplit(data, i, PrintQuestion(qs[0]), PrintQuestions(qs[1..]));
  }

  lemma {:induction false} NameCut(data: seq<Byte>, i: nat, n: Name)
    requires Cut(data, i, PrintName(n))
    ensures SkipName(data, i) == None || SkipName(data, i).value > |data|
    decreases |n.labels|
  {
    if n.labels == [] {
      assert PrintName(n) == End(n.end);
      if i < |data| { assert data[i] == data[i..][0] == End(n.end)[0]; }
    } else {
      NameCutSplit(data, i, n);
      if Cut(data, i, LabelOf(n)) {
        HeadCut(data, i, n.labels[0]);
      } else {
        LabelRead(data, i, n.labels[0], i + |LabelOf(n)|);
        NameCut(data, i + |LabelOf(n)|, BehindLabel(n));
      }
    }
  }

  lemma QuestionsPastEnd(data: seq<Byte>, i: nat, n: nat)
    requires i > |data|
    ensures SkipQuestions(data, i, n) == None || SkipQuestions(data, i, n).value > |data|
    decreases n
  {
  }

  lemma QuestionCut(data: seq<Byte>, i: nat, q: Question)
    requires Cut(data, i, PrintQuestion(q))
    ensures SkipName(data, i) == None || SkipName(data, i).value + 4 > |data|
  {
    var name, fixed := PrintName(q.name), Two(q.qtype) + Two(q.qclass);
    CutSplit(data, i, name, fixed);
    if Cut(data, i, name) { NameCut(data, i, q.name); } else { NameRead(data, i, q.name); }
  }

  lemma QuestionSkipped(data: seq<Byte>, i: nat, q: Question, n: nat, more: nat)
    requires n == more + 1 && Stands(data, i, PrintQuestion(q))
    ensures SkipQuestions(data, i, n) == SkipQuestions(data, i + |PrintQuestion(q)|, more)
  {
    QuestionRead(data, i, q);
    QuestionStep(data, i, i + |PrintQuestion(q)| - 4, n);
  }

  lemma FirstQuestionLost(data: seq<Byte>, i: nat, q: Question, n: nat)
    requires n > 0 && Cut(data, i, PrintQuestion(q))
    ensures SkipQuestions(data, i, n) == None || SkipQuestions(data, i, n).value > |data|
  {
    QuestionCut(data, i, q);
    if SkipName(data, i).Some? {
      QuestionStep(data, i, SkipName(data, i).value, n);
      QuestionsPastEnd(data, SkipName(data, i).value + 4, n - 1);
    }
  }

  lemma {:induction false} QuestionsCut(data: seq<Byte>, i: nat, qs: seq<Question>)
    requires Cut(data, i, PrintQuestions(qs))
    ensures SkipQuestions(data, i, |qs|) == None || SkipQuestions(data, i, |qs|).value > |data|
    decreases |qs|
  {
    if qs != [] {
      var q := qs[0];
      QuestionsCutSplit(data, i, qs);
      if Cut(data, i, PrintQuestion(q)) {
        FirstQuestionLost(data, i, q, |qs|);
      } else {
        QuestionSkipped(data, i, q, |qs|, |qs[1..]|);
        QuestionsCut(data, i + |PrintQuestion(q)|, qs[1..]);
      }
    }
  }

  lemma RecordCut(data: seq<Byte>, i: nat, a: Record)
    requires Cut(data, i, PrintRecord(a))
    ensures ReadRecord(data, i) == None
  {
    var name := PrintName(a.name);
    CutSplit(data, i, name + Fixed(a), a.data);
    if Cut(data, i, name + Fixed(a)) {
      CutSplit(data, i, name, Fixed(a));
      if Cut(data, i, name) { NameCut(data, i, a.name); } else { NameRead(data, i, a.name); }
    } else {
      FrontRead(data, i, a);
    }
  }

  /** A cut in the first record stops the loop there; otherwise it lies further on. */
  lemma RecordsCutTurn(data: seq<Byte>, i: nat, rs: seq<Record>) returns (next: nat)
    requires rs != [] && Cut(data, i, PrintRecords(rs))
    ensures ReadRecord(data, i) == None ||
            (ReadRecord(data, i).value.next == next && Cut(data, next, PrintRecords(rs[1..])))
  {
    CutSplit(data, i, PrintRecord(rs[0]), PrintRecords(rs[1..]));
    next := i + |PrintRecord(rs[0])|;
    if Cut(data, i, PrintRecord(rs[0])) {
      RecordCut(data, i, rs[0]);
    } else {
      RecordRead(data, i, rs[0]);
    }
  }

  lemma NoneFurtherOn(data: seq<Byte>, i: nat, next: nat, n: nat)
    requires n > 0 && (ReadRecord(data, i).Some? ==> ReadRecord(data, i).value.next == next && Addresses(data, next, n - 1) == None)
    ensures Addresses(data, i, n) == None
  {
  }

  lemma {:induction false} RecordsCut(data: seq<Byte>, i: nat, rs: seq<Record>)
    requires Cut(data, i, PrintRecords(rs))
    ensures Addresses(data, i, |rs|) == None
    decreases |rs|
  {
    if rs != [] {
      var next := RecordsCutTurn(data, i, rs);
      if ReadRecord(data, i).Some? { RecordsCut(data, next, rs[1..]); }
      assert |rs[1..]| == |rs| - 1;
      NoneFurtherOn(data, i, next, |rs|);
    }
  }

  lemma UnusableFrom(data: seq<Byte>, id: nat)
    requires |data| >= 12 && U16(data, 0) == id && U16(data, 2) % 16 == 0
    requires var i := SkipQuestions(data, 12, U16(data, 4)); i.Some? ==> Addresses(data, i.value, U16(data, 6)) == None
    ensures Parse(data, id) == Unusable
  {
  }

  lemma AddressesPastEnd(data: seq<Byte>, i: nat, n: nat)
    requires i > |data| && n > 0
    ensures Addresses(data, i, n) == None
  {
  }

  lemma CutInQuestions(data: seq<Byte>, r: Response)
    requires Valid(r) && r.flags % 16 == 0 && r.answers != []
    requires Stands(data, 0, Header(r)) && Cut(data, 12, PrintQuestions(r.questions))
    ensures Parse(data, r.id) == Unusable
  {
    HeaderRead(data, r);
    QuestionsCut(data, 12, r.questions);
    var i := SkipQuestions(data, 12, |r.questions|);
    if i.Some? { AddressesPastEnd(data, i.value, |r.answers|); }
    UnusableFrom(data, r.id);
  }

  lemma CutInAnswers(data: seq<Byte>, r: Response)
    requires Valid(r) && r.flags % 16 == 0 && Stands(data, 0, Header(r) + PrintQuestions(r.questions))
    requires Cut(data, 12 + |PrintQuestions(r.questions)|, PrintRecords(r.answers))
    ensures Parse(data, r.id) == Unusable
  {
    StandsSplit(data, 0, Header(r), PrintQuestions(r.questions));
    HeaderRead(data, r);
    QuestionsRead(data, 12, r.questions);
    RecordsCut(data, 12 + |PrintQuestions(r.questions)|, r.answers);
    UnusableFrom(data, r.id);
  }

  /** A response cut anywhere before the end of its last answer gives nothing. */
  lemma TruncatedIsUnusable(r: Response, k: nat)
    requires Valid(r) && r.flags % 16 == 0 && r.answers != [] && k < |Print(r)|
    ensures Parse(Print(r)[..k], r.id) == Unusable
  {
    var data := Print(r)[..k];
    var head, qs, rs := Header(r), PrintQuestions(r.questions), PrintRecords(r.answers);
    CutOf(Print(r), k);
    CutSplit(data, 0, head + qs, rs);
    if Cut(data, 0, head + qs) {
      CutSplit(data, 0, head, qs);
      if !Cut(data, 0, head) { CutInQuestions(data, r); }
    } else {
      CutInAnswers(data, r);
    }
  }

  // --- ... and where there is no answer to read -----------------------------------------------

  /** How much of a last question can be missing and its name still be skipped: what
      follows the name, and the second byte of a pointer. */
  function Slack(q: Question): nat {
    if q.name.end.Pointer? then 5 else 4
  }

  lemma QuestionIsLonger(q: Question)
    ensures |PrintQuestion(q)| > Slack(q)
  {
    assert |PrintName(q.name)| >= |End(q.name.end)|;
  }

  /** A cut name is skipped exactly when all it lacks is a pointer's second byte. */
  lemma {:induction false} NameCutSkips(data: seq<Byte>, i: nat, n: Name)
    requires Cut(data, i, PrintName(n))
    ensures SkipName(data, i).Some? <==> n.end.Pointer? && |data| + 1 == i + |PrintName(n)|
    decreases |n.labels|
  {
    if n.labels == [] {
      assert PrintName(n) == End(n.end);
      if i < |data| { assert data[i] == data[i..][0] == End(n.end)[0]; }
    } else {
      NameCutSplit(data, i, n);
      if Cut(data, i, LabelOf(n)) {
        HeadCut(data, i, n.labels[0]);
      } else {
        LabelRead(data, i, n.labels[0], i + |LabelOf(n)|);
        NameCutSkips(data, i + |LabelOf(n)|, BehindLabel(n));
      }
    }
  }

  lemma LastQuestionCut(data: seq<Byte>, i: nat, q: Question)
    requires Cut(data, i, PrintQuestion(q))
    ensures SkipName(data, i).Some? <==> |data| + Slack(q) >= i + |PrintQuestion(q)|
  {
    var name, fixed := PrintName(q.name), Two(q.qtype) + Two(q.qclass);
    CutSplit(data, i, name, fixed);
    if Cut(data, i, name) { NameCutSkips(data, i, q.name); } else { NameRead(data, i, q.name); }
  }

  lemma LastOf(qs: seq<Question>)
    requires |qs| > 1
    ensures qs[1..][|qs| - 2] == qs[|qs| - 1] && |PrintQuestions(qs[1..])| > Slack(qs[|qs| - 1])
    decreases |qs|
  {
    var rest := qs[1..];
    if |rest| == 1 {
      QuestionIsLonger(rest[0]);
      assert rest[1..] == [];
    } else {
      LastOf(rest);
    }
  }

  /** A cut question section is skipped exactly when it ends inside the last question,
      with that question's name read. */
  lemma {:induction false} QuestionsCutSkip(data: seq<Byte>, i: nat, qs: seq<Question>)
    requires qs != [] && Cut(data, i, PrintQuestions(qs))
    ensures SkipQuestions(data, i, |qs|).Some? <==> |data| + Slack(qs[|qs| - 1]) >= i + |PrintQuestions(qs)|
    decreases |qs|
  {
    var q, rest := qs[0], qs[1..];
    QuestionsCutSplit(data, i, qs);
    if |qs| == 1 {
      assert PrintQuestions(rest) == [];
      OnlyQuestionCut(data, i, q);
    } else {
      LastOf(qs);
      if Cut(data, i, PrintQuestion(q)) {
        FirstQuestionCut(data, i, q, |rest|);
      } else {
        QuestionSkipped(data, i, q, |qs|, |qs[1..]|);
        QuestionsCutSkip(data, i + |PrintQuestion(q)|, rest);
      }
    }
  }

  lemma OnlyQuestionCut(data: seq<Byte>, i: nat, q: Question)
    requires Cut(data, i, PrintQuestion(q))
    ensures SkipQuestions(data, i, 1).Some? <==> |data| + Slack(q) >= i + |PrintQuestion(q)|
  {
    LastQuestionCut(data, i, q);
    if SkipName(data, i).Some? { QuestionStep(data, i, SkipName(data, i).value, 1); }
  }

  /** A cut before the last question is noticed there. */
  lemma FirstQuestionCut(data: seq<Byte>, i: nat, q: Question, more: nat)
    requires Cut(data, i, PrintQuestion(q)) && more > 0
    ensures SkipQuestions(data, i, more + 1) == None
  {
    QuestionCut(data, i, q);
    if SkipName(data, i).Some? { QuestionStep(data, i, SkipName(data, i).value, more + 1); }
  }

  /** With no answer to read, a response cut in its last question, past that question's
      name, reads as an empty answer; cut before it gives nothing. */
  lemma CutQuestionReadsAsEmpty(r: Response, k: nat)
    requires Valid(r) && r.flags % 16 == 0 && r.answers == [] && r.questions != [] && k < |Print(r)|
    ensures Parse(Print(r)[..k], r.id) ==
            if k + Slack(r.questions[|r.questions| - 1]) >= |Print(r)| then Records([]) else Unusable
  {
    var data, head, qs := Print(r)[..k], Header(r), PrintQuestions(r.questions);
    assert Print(r) == head + qs && |head| == 12;
    CutOf(head + qs, k);
    CutSplit(data, 0, head, qs);
    if Cut(data, 0, head) {
      SlackFits(r.questions);
    } else {
      CutInLastSection(data, r);
    }
  }

  lemma CutOf(bytes: seq<Byte>, k: nat)
    requires k < |bytes|
    ensures Cut(bytes[..k], 0, bytes)
  {
    assert bytes[..k][0..] == bytes[..k];
  }

  lemma CutInLastSection(data: seq<Byte>, r: Response)
    requires Valid(r) && r.flags % 16 == 0 && r.answers == [] && r.questions != []
    requires Stands(data, 0, Header(r)) && Cut(data, 12, PrintQuestions(r.questions))
    ensures Parse(data, r.id) ==
            if |data| + Slack(r.questions[|r.questions| - 1]) >= 12 + |PrintQuestions(r.questions)| then Records([]) else Unusable
  {
    HeaderRead(data, r);
    QuestionsCutSkip(data, 12, r.questions);
    NoAnswers(data, r.id);
  }

  lemma SlackFits(qs: seq<Question>)
    requires qs != []
    ensures |PrintQuestions(qs)| > Slack(qs[|qs| - 1])
  {
    if |qs| == 1 {
      QuestionIsLonger(qs[0]);
      assert qs[1..] == [];
    } else {
      LastOf(qs);
    }
  }

  lemma NoAnswers(data: seq<Byte>, id: nat)
    requires |data| >= 12 && U16(data, 0) == id && U16(data, 2) % 16 == 0 && U16(data, 6) == 0
    ensures Parse(data, id) == if SkipQuestions(data, 12, U16(data, 4)).Some? then Records([]) else Unusable
  {
  }

  lemma CutHeader(r: Response, k: nat)
    requires Valid(r) && r.answers == [] && r.questions == [] && k < |Print(r)|
    ensures Parse(Print(r)[..k], r.id) == Unusable
  {
    assert |Print(r)| == 12;
  }

  /** Every cut of a response is noticed exactly when it has an answer to read, or
      nothing but its header. */
  lemma CutsAreNoticed(r: Response)
    requires Valid(r) && r.flags % 16 == 0
    ensures (forall k: nat :: k < |Print(r)| ==> Parse(Print(r)[..k], r.id) == Unusable) <==> r.answers != [] || r.questions == []
  {
    if r.answers != [] || r.questions == [] {
      forall k: nat | k < |Print(r)| ensures Parse(Print(r)[..k], r.id) == Unusable {
        if r.answers != [] { TruncatedIsUnusable(r, k); } else { CutHeader(r, k); }
      }
    } else {
      CutQuestionReadsAsEmpty(r, |Print(r)| - 1);
    }
  }
}

/** The per-user dialogue that turns `/invest` or `/return`, an amount, a note and a
    confirmation button into one transaction record. Each handler is a function from
    the session map before the event to the session map after it and the reply sent;
    the class in module TransactionBot runs them on its mutable map. */
module Dialogue {
  import opened Wrappers
  import opened Text
  import opened Auth

  datatype TxType = Invest | Return

  /** The `type` string a session carries and a record stores. */
  function TypeName(k: TxType): string {
    match k
    case Invest => "Invest"
    case Return => "Return"
  }

  /** The `step` field: 'amount', 'note', 'confirm'. */
  datatype Step = AwaitAmount | AwaitNote | AwaitConfirm

  /** `{type, step, amount?, note?}`; a field the code has not set yet is `None`. */
  datatype Session = Session(kind: TxType, step: Step, amount: Option<string>, note: Option<string>)

  /** `userSessions`: at most one session per user. */
  type Sessions = map<UserId, Session>

  /** What the bot sends back, without its wording. */
  datatype Reply =
    | Silent                                                        // nothing is sent
    | AskAmount(kind: TxType)                                       // "How much would you like to …?"
    | InvalidAmount                                                 // "Please enter a valid number …"
    | AskNote                                                       // "Please enter a note … or type "skip" …"
    | AskConfirm(kind: TxType, amount: Option<string>, note: string) // the summary with Yes / No buttons
    | Cancelled                                                     // "Transaction cancelled."
    | Logged(kind: TxType, amount: Option<string>)                  // "✅ … logged."
    | LogFailed(kind: TxType)                                       // "❌ Failed to log …"

  /** The button tokens. */
  const ConfirmYes: string := "confirm_yes"
  const ConfirmNo: string := "confirm_no"

  /** The row the bot appends to the store. `amount` is `None` when the session had no
      amount yet, in which case the `Amount` key is undefined and left out of the request. */
  datatype Record = Record(
    date: string,
    timestamp: string,
    kind: string,
    amount: Option<string>,
    returnAmount: string,
    status: string,
    notes: string)

  /** The fields a session has been given so far fit its step: an amount, validated and
      trimmed, once past 'amount'; a trimmed note once past 'note'. */
  predicate WellFormed(s: Session) {
    match s.step
    case AwaitAmount => s.amount.None? && s.note.None?
    case AwaitNote => s.amount.Some? && IsDigits(s.amount.value) && s.note.None?
    case AwaitConfirm => s.amount.Some? && IsDigits(s.amount.value) && s.note.Some? && Trim(s.note.value) == s.note.value
  }

  predicate AllWellFormed(m: Sessions) {
    forall u :: u in m ==> WellFormed(m[u])
  }

  /** Every user holding a session passes the authorization gate. Only the command
      handlers create sessions, and they check the gate first. */
  predicate AllAuthorized(allowed: seq<string>, m: Sessions) {
    forall v :: v in m ==> IsAuthorized(allowed, v)
  }

  /** `m` and `m'` agree on every user other than `u`. */
  ghost predicate SameElsewhere(m: Sessions, m': Sessions, u: UserId) {
    forall v :: v != u ==> (v in m <==> v in m') && (v in m ==> m[v] == m'[v])
  }

  /** `{ type: …, step: 'amount' }`. */
  function NewSession(k: TxType): (s: Session)
    ensures WellFormed(s) && s.kind == k && s.step == AwaitAmount
  {
    Session(k, AwaitAmount, None, None)
  }

  /** The note stored for a reply in step 'note': empty for any spelling of "skip" once
      trimmed, otherwise the trimmed text. */
  function NoteOf(text: string): (note: string)
    ensures IsSkip(Trim(text)) ==> note == ""
    ensures !IsSkip(Trim(text)) ==> note == Trim(text)
    ensures Trim(note) == note
  {
    TrimIdempotent(text);
    if IsSkip(Trim(text)) then "" else Trim(text)
  }

  datatype Advanced = Advanced(session: Session, reply: Reply)

  /** One free-text reply to a session, once the handler has established that the sender
      is authorized, has a session, sent text and did not send a command. */
  function Advance(s: Session, text: string): (a: Advanced)
    ensures a.session.kind == s.kind
    ensures WellFormed(s) ==> WellFormed(a.session)
    ensures s.step == AwaitAmount ==>
      (a.session.step == AwaitNote <==> IsDigits(Trim(text)))
      && (a.session.step == AwaitNote ==> a.session == s.(step := AwaitNote, amount := Some(Trim(text))) && a.reply == AskNote)
      && (a.session.step != AwaitNote ==> a == Advanced(s, InvalidAmount))
    ensures s.step == AwaitNote ==>
      a.session == s.(step := AwaitConfirm, note := Some(NoteOf(text)))
      && a.reply == AskConfirm(s.kind, s.amount, NoteOf(text))
    ensures s.step == AwaitConfirm ==> a == Advanced(s, Silent)
  {
    match s.step
    case AwaitAmount =>
      var amount := Trim(text);
      if IsDigits(amount) then Advanced(s.(amount := Some(amount), step := AwaitNote), AskNote)
      else Advanced(s, InvalidAmount)
    case AwaitNote =>
      var note := NoteOf(text);
      Advanced(s.(note := Some(note), step := AwaitConfirm), AskConfirm(s.kind, s.amount, note))
    case AwaitConfirm =>
      Advanced(s, Silent)
  }

  datatype Effect = Effect(sessions: Sessions, reply: Reply)

  /** The `/invest` and `/return` handlers: an authorized sender gets a fresh session,
      whatever session it had before; an unauthorized one changes nothing and hears nothing. */
  function Begin(allowed: seq<string>, m: Sessions, u: UserId, k: TxType): (e: Effect)
    ensures IsAuthorized(allowed, u) ==> u in e.sessions && e.sessions[u] == NewSession(k) && e.reply == AskAmount(k)
    ensures !IsAuthorized(allowed, u) ==> e == Effect(m, Silent)
    ensures SameElsewhere(m, e.sessions, u)
    ensures AllWellFormed(m) ==> AllWellFormed(e.sessions)
    ensures AllAuthorized(allowed, m) ==> AllAuthorized(allowed, e.sessions)
  {
    if IsAuthorized(allowed, u) then Effect(m[u := NewSession(k)], AskAmount(k)) else Effect(m, Silent)
  }

  /** The `message` handler. `text` is `None` for a message without text, on which the
      handler throws at `startsWith` once it has found a session; that event is taken
      to change nothing and send nothing. */
  function Message(allowed: seq<string>, m: Sessions, u: UserId, text: Option<string>): (e: Effect)
    ensures SameElsewhere(m, e.sessions, u)
    ensures e.sessions.Keys == m.Keys
    ensures AllWellFormed(m) ==> AllWellFormed(e.sessions)
    ensures !IsAuthorized(allowed, u) || u !in m || text.None? || StartsWithSlash(text.value) ==> e == Effect(m, Silent)
    ensures u in m && m[u].step == AwaitConfirm ==> e == Effect(m, Silent)
    ensures IsAuthorized(allowed, u) && u in m && text.Some? && !StartsWithSlash(text.value) ==>
      var a := Advance(m[u], text.value);
      u in e.sessions && e.sessions[u] == a.session && e.reply == a.reply
  {
    if !IsAuthorized(allowed, u) || u !in m || text.None? || StartsWithSlash(text.value) then Effect(m, Silent)
    else
      var a := Advance(m[u], text.value);
      assert m[u].step == AwaitConfirm ==> m[u := a.session] == m;
      UpdateSameElsewhere(m, u, a.session);
      assert AllWellFormed(m) ==> AllWellFormed(m[u := a.session]) by {
        if AllWellFormed(m) { UpdateKeepsWellFormed(m, u, a.session); }
      }
      Effect(m[u := a.session], a.reply)
  }

  lemma UpdateSameElsewhere(m: Sessions, u: UserId, s: Session)
    ensures SameElsewhere(m, m[u := s], u)
  {
  }

  lemma UpdateKeepsWellFormed(m: Sessions, u: UserId, s: Session)
    requires AllWellFormed(m) && WellFormed(s)
    ensures AllWellFormed(m[u := s])
  {
  }

  datatype Pressed = Pressed(sessions: Sessions, record: Option<Record>, reply: Reply)

  /** The record `confirm_yes` writes for session `s`. The code reads the clock twice:
      `dateClock` is the ISO time read for `Date`, `stampClock` the one read for
      `Timestamp`. */
  function RecordOf(s: Session, dateClock: string, stampClock: string): Record {
    Record(DatePart(dateClock), stampClock, TypeName(s.kind), s.amount, "", "Pending", s.note.GetOr(""))
  }

  /** The `callback_query` handler for a press of button `data` by user `u`: with no
      session nothing happens; `confirm_no` drops the session; `confirm_yes` builds one
      record and drops the session, and `written` (whether the store accepted the
      record) decides only the reply. The sender's authorization and the session's step
      are not consulted. */
  function Press(m: Sessions, u: UserId, data: string, dateClock: string, stampClock: string, written: bool): (p: Pressed)
    ensures u !in m ==> p == Pressed(m, None, Silent)
    ensures data != ConfirmYes && data != ConfirmNo ==> p == Pressed(m, None, Silent)
    ensures u in m && (data == ConfirmYes || data == ConfirmNo) ==> p.sessions == m - {u}
    ensures p.record.Some? <==> u in m && data == ConfirmYes
    ensures p.record.Some? ==>
      var r := p.record.value;
      r.kind == TypeName(m[u].kind) && r.amount == m[u].amount && r.returnAmount == "" && r.status == "Pending"
      && r.notes == m[u].note.GetOr("") && r.timestamp == stampClock && r.date == DatePart(dateClock)
    ensures u in m && data == ConfirmNo ==> p.reply == Cancelled
    ensures u in m && data == ConfirmYes ==>
      p.reply == if written then Logged(m[u].kind, m[u].amount) else LogFailed(m[u].kind)
    ensures SameElsewhere(m, p.sessions, u)
    ensures p.sessions.Keys <= m.Keys
    ensures AllWellFormed(m) ==> AllWellFormed(p.sessions)
  {
    if u !in m then Pressed(m, None, Silent)
    else
      var s := m[u];
      if data == ConfirmNo then Pressed(m - {u}, None, Cancelled)
      else if data == ConfirmYes then
        Pressed(m - {u}, Some(RecordOf(s, dateClock, stampClock)), if written then Logged(s.kind, s.amount) else LogFailed(s.kind))
      else Pressed(m, None, Silent)
  }

  /** Whatever the store answers, a press leaves the same sessions and the same record. */
  lemma WriteOutcomeOnlyChangesReply(m: Sessions, u: UserId, data: string, dateClock: string, stampClock: string)
    ensures Press(m, u, data, dateClock, stampClock, true).sessions == Press(m, u, data, dateClock, stampClock, false).sessions
    ensures Press(m, u, data, dateClock, stampClock, true).record == Press(m, u, data, dateClock, stampClock, false).record
  {
  }

  /** Any amount text made of digits and surrounded by whitespace is accepted, and what
      is stored is the digits alone. */
  lemma PaddedAmountAccepted(s: Session, pre: string, digits: string, post: string)
    requires s.step == AwaitAmount
    requires AllWhitespace(pre) && AllWhitespace(post) && IsDigits(digits)
    ensures Advance(s, pre + digits + post).session == s.(step := AwaitNote, amount := Some(digits))
  {
    DigitsAreUnpadded(digits);
    TrimOfPadded(pre, digits, post);
  }

  /** A whole dialogue: `/invest` or `/return`, an amount, a note and `confirm_yes`
      produce the one record whose fields come from the replies, leave `u` without a
      session and touch no other user's session. */
  lemma CompleteDialogue(allowed: seq<string>, m: Sessions, u: UserId, k: TxType,
                         amountText: string, noteText: string, dateClock: string, stampClock: string, written: bool)
    requires IsAuthorized(allowed, u)
    requires IsDigits(Trim(amountText)) && !StartsWithSlash(noteText)
    ensures
      var m1 := Begin(allowed, m, u, k).sessions;
      var m2 := Message(allowed, m1, u, Some(amountText)).sessions;
      var m3 := Message(allowed, m2, u, Some(noteText)).sessions;
      var p := Press(m3, u, ConfirmYes, dateClock, stampClock, written);
      p.record == Some(Record(DatePart(dateClock), stampClock, TypeName(k), Some(Trim(amountText)), "", "Pending", NoteOf(noteText)))
      && u !in p.sessions && SameElsewhere(m, p.sessions, u)
  {
    TrimKeepsSlash(amountText);
    DigitsAreUnpadded(Trim(amountText));
    var m1 := Begin(allowed, m, u, k).sessions;
    var m2 := Message(allowed, m1, u, Some(amountText)).sessions;
    assert m2[u] == Session(k, AwaitNote, Some(Trim(amountText)), None);
    var m3 := Message(allowed, m2, u, Some(noteText)).sessions;
    assert m3[u] == Session(k, AwaitConfirm, Some(Trim(amountText)), Some(NoteOf(noteText)));
  }

  /** Once a press has resolved a session, pressing any button again does nothing. */
  lemma SecondPressIsNoOp(m: Sessions, u: UserId, data: string, data2: string, dateClock: string, stampClock: string, dateClock2: string, stampClock2: string, written: bool, written2: bool)
    requires data == ConfirmYes || data == ConfirmNo
    ensures
      var m1 := Press(m, u, data, dateClock, stampClock, written).sessions;
      Press(m1, u, data2, dateClock2, stampClock2, written2) == Pressed(m1, None, Silent)
  {
  }

  /** A session confirmed after its note was entered yields a record whose amount is a
      validated digit string and whose note is trimmed. */
  lemma ConfirmedRecordIsValidated(m: Sessions, u: UserId, dateClock: string, stampClock: string, written: bool)
    requires AllWellFormed(m) && u in m && m[u].step == AwaitConfirm
    ensures
      var r := Press(m, u, ConfirmYes, dateClock, stampClock, written).record;
      r.Some? && r.value.amount.Some? && IsDigits(r.value.amount.value) && Trim(r.value.notes) == r.value.notes
  {
  }

  /** Because the button handler does not look at the step, a `confirm_yes` left over
      from an earlier dialogue, pressed while a new session still waits for its amount,
      writes a record without an amount. */
  lemma EarlyConfirmHasNoAmount(m: Sessions, u: UserId, dateClock: string, stampClock: string, written: bool)
    requires AllWellFormed(m) && u in m && m[u].step == AwaitAmount
    ensures
      var p := Press(m, u, ConfirmYes, dateClock, stampClock, written);
      p.record.Some? && p.record.value.amount.None? && p.record.value.notes == "" && u !in p.sessions
  {
  }

  /** Sessions are only ever created for authorized users, so a button press by a user
      who does not pass the gate finds no session and does nothing, although the
      button handler itself does not consult the gate. */
  lemma UnauthorizedPressIgnored(allowed: seq<string>, m: Sessions, u: UserId, data: string,
                                 dateClock: string, stampClock: string, written: bool)
    requires AllAuthorized(allowed, m) && !IsAuthorized(allowed, u)
    ensures Press(m, u, data, dateClock, stampClock, written) == Pressed(m, None, Silent)
  {
  }
}

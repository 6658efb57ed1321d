/** The bot's event handlers over its one piece of mutable state, the `userSessions`
    map. Each handler runs to completion; what it reads from the outside world (the
    allow list, the current time, the store's answer) is a parameter. */
module TransactionBot {
  import opened Wrappers
  import opened Text
  import opened Auth
  import opened Dialogue
  import opened Reports

  /** What `/summary` and `/history` send back, without their wording. */
  datatype Report =
    | NoReport                      // unauthorized sender: nothing is sent
    | ShowSummary(totals: Totals)
    | ShowHistory(view: HistoryView)
    | FetchFailed                   // "❌ Failed to fetch …"

  class Bot {
    /** `allowedUsers`, fixed at start-up. */
    const allowed: seq<string>
    /** `userSessions`. */
    var sessions: Sessions

    /** Every stored session fits its step, and belongs to a user who passes the gate. */
    ghost predicate Valid()
      reads this
    {
      AllWellFormed(sessions) && AllAuthorized(allowed, sessions)
    }

    /** Start-up: `env` is the configured comma-separated list of allowed user ids. */
    constructor (env: string)
      ensures allowed == AllowList(env) && sessions == map[] && Valid()
    {
      allowed := AllowList(env);
      sessions := map[];
    }

    /** `resetSession`: forget `u`'s session, if it has one. */
    method ResetSession(u: UserId)
      requires Valid()
      modifies this
      ensures Valid()
      ensures sessions == old(sessions) - {u}
    {
      sessions := sessions - {u};
    }

    /** The `/invest` (`k == Invest`) and `/return` (`k == Return`) command handlers. */
    method StartDialogue(u: UserId, k: TxType) returns (reply: Reply)
      requires Valid()
      modifies this
      ensures Valid()
      ensures Effect(sessions, reply) == Begin(allowed, old(sessions), u, k)
    {
      if !IsAuthorized(allowed, u) {
        return Silent;
      }
      sessions := sessions[u := Session(k, AwaitAmount, None, None)];
      reply := AskAmount(k);
    }

    /** The `message` handler for a message from `u` carrying `text` (`None` when it has no text). */
    method HandleMessage(u: UserId, text: Option<string>) returns (reply: Reply)
      requires Valid()
      modifies this
      ensures Valid()
      ensures Effect(sessions, reply) == Message(allowed, old(sessions), u, text)
    {
      if !IsAuthorized(allowed, u) {
        return Silent;
      }
      if u !in sessions {
        return Silent;
      }
      var session := sessions[u];
      if text.None? || StartsWithSlash(text.value) {
        return Silent;
      }
      var t := text.value;
      if session.step == AwaitAmount {
        var amount := Trim(t);
        if !IsDigits(amount) {
          return InvalidAmount;
        }
        session := session.(amount := Some(amount));
        session := session.(step := AwaitNote);
        sessions := sessions[u := session];
        return AskNote;
      }
      if session.step == AwaitNote {
        var note := if IsSkip(Trim(t)) then "" else Trim(t);
        session := session.(note := Some(note));
        session := session.(step := AwaitConfirm);
        sessions := sessions[u := session];
        return AskConfirm(session.kind, session.amount, note);
      }
      reply := Silent;
    }

    /** The `callback_query` handler for a press of the button with token `data` by `u`;
        `dateClock` and `stampClock` are the ISO times of its two clock reads. It returns
        the record to append, if any; `written` is the store's answer to that append and
        chooses between the two replies. Although the handler does not consult the gate,
        a press by a user who does not pass it changes nothing and sends nothing. */
    method HandleButton(u: UserId, data: string, dateClock: string, stampClock: string, written: bool)
      returns (record: Option<Record>, reply: Reply)
      requires Valid()
      modifies this
      ensures Valid()
      ensures Pressed(sessions, record, reply) == Press(old(sessions), u, data, dateClock, stampClock, written)
      ensures !IsAuthorized(allowed, u) ==> sessions == old(sessions) && record.None? && reply == Silent
    {
      record, reply := None, Silent;
      if u !in sessions {
        return;
      }
      var session := sessions[u];
      if data == ConfirmNo {
        reply := Cancelled;
        ResetSession(u);
        return;
      }
      if data == ConfirmYes {
        record := Some(Record(DatePart(dateClock), stampClock, TypeName(session.kind), session.amount, "", "Pending", session.note.GetOr("")));
        reply := if written then Logged(session.kind, session.amount) else LogFailed(session.kind);
        ResetSession(u);
      }
    }

    /** The `/summary` handler; `fetched` is the store's list, `None` when the fetch failed. */
    method Summary(u: UserId, fetched: Option<seq<Row>>) returns (report: Report)
      ensures !IsAuthorized(allowed, u) ==> report == NoReport
      ensures IsAuthorized(allowed, u) && fetched.None? ==> report == FetchFailed
      ensures IsAuthorized(allowed, u) && fetched.Some? ==>
        report.ShowSummary? && report.totals.invest == TypeTotal(fetched.value, "Invest")
        && report.totals.returned == TypeTotal(fetched.value, "Return")
        && report.totals.net == report.totals.invest - report.totals.returned
    {
      if !IsAuthorized(allowed, u) {
        return NoReport;
      }
      if fetched.None? {
        return FetchFailed;
      }
      var totals := Summarize(fetched.value);
      report := ShowSummary(totals);
    }

    /** The `/history` handler; `fetched` is the store's list, `None` when the fetch failed. */
    method History(u: UserId, fetched: Option<seq<Row>>) returns (report: Report)
      ensures !IsAuthorized(allowed, u) ==> report == NoReport
      ensures IsAuthorized(allowed, u) && fetched.None? ==> report == FetchFailed
      ensures IsAuthorized(allowed, u) && fetched.Some? ==>
        report.ShowHistory? && (report.view.NoTransactions? <==> fetched.value == [])
        && (report.view.Listing? ==>
              var rows := fetched.value;
              |report.view.lines| == (if |rows| < HistoryLimit then |rows| else HistoryLimit)
              && forall k :: 0 <= k < |report.view.lines| ==> report.view.lines[k] == LineOf(rows[|rows| - 1 - k]))
    {
      if !IsAuthorized(allowed, u) {
        return NoReport;
      }
      if fetched.None? {
        return FetchFailed;
      }
      var view := RenderHistory(fetched.value);
      report := ShowHistory(view);
    }
  }
}

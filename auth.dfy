/** The authorization gate: a sender may use the bot when its numeric id, written as a
    decimal string, is one of the comma-separated entries of the configured allow list. */
module Auth {
  import opened Text
  import opened Decimal

  /** A Telegram user id (`msg.from.id`, `query.from.id`), a positive integer. */
  type UserId = nat

  /** `allowedUsersEnv.split(',')`: the entries are taken as they are, without trimming. */
  function AllowList(env: string): (ids: seq<string>)
    ensures |ids| >= 1 && Join(ids, ',') == env
    ensures forall i :: 0 <= i < |ids| ==> ',' !in ids[i]
  {
    JoinSplit(env, ',');
    Split(env, ',')
  }

  /** `allowedUsers.includes(String(msg.from.id))`. */
  predicate IsAuthorized(allowed: seq<string>, u: UserId) {
    DecimalString(u) in allowed
  }

  /** A sender is authorized exactly when some entry is a canonical digit string (no sign,
      no space, no leading zero) whose value is the sender's id. So " 42" or "042" in
      the list admits nobody. */
  lemma AuthorizedIff(allowed: seq<string>, u: UserId)
    ensures IsAuthorized(allowed, u) <==>
      exists i :: 0 <= i < |allowed| && IsCanonical(allowed[i]) && DigitsValue(allowed[i]) == u
  {
    if IsAuthorized(allowed, u) {
      var i :| 0 <= i < |allowed| && allowed[i] == DecimalString(u);
      DecimalStringIff(allowed[i], u);
    }
    if exists i :: 0 <= i < |allowed| && IsCanonical(allowed[i]) && DigitsValue(allowed[i]) == u {
      var i :| 0 <= i < |allowed| && IsCanonical(allowed[i]) && DigitsValue(allowed[i]) == u;
      DecimalStringIff(allowed[i], u);
    }
  }

  /** Configuring the comma-separated entries `ids` authorizes exactly the ids among them. */
  lemma AllowListOfEntries(ids: seq<string>, u: UserId)
    requires |ids| >= 1
    requires forall i :: 0 <= i < |ids| ==> ',' !in ids[i]
    ensures IsAuthorized(AllowList(Join(ids, ',')), u) <==> DecimalString(u) in ids
  {
    SplitJoin(ids, ',');
  }
}

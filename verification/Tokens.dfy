/** Refresh-token rows and the one-step operations the Store contract promises on them. */
module Tokens {

  datatype Row = Row(user: string, consumed: bool)

  type Rows = map<string, Row>

  /** What a consume reports: the owner on first use, the owner again on a replay, or not found. */
  datatype Outcome = Accepted(user: string) | Replayed(user: string) | Unknown

  function Saved(rows: Rows, jti: string, user: string): Rows {
    rows[jti := Row(user, false)]
  }

  /** Marks every token of the user consumed. */
  function Burned(rows: Rows, user: string): Rows {
    map j | j in rows :: if rows[j].user == user then Row(user, true) else rows[j]
  }

  function Consumed(rows: Rows, jti: string): (Rows, Outcome) {
    if jti !in rows then (rows, Unknown)
    else
      var row := rows[jti];
      if row.consumed then (Burned(rows, row.user), Replayed(row.user))
      else (rows[jti := Row(row.user, true)], Accepted(row.user))
  }

  ghost predicate Live(rows: Rows, jti: string) {
    jti in rows && !rows[jti].consumed
  }

  // ---- Runs ----

  datatype Op = Save(jti: string, user: string) | Consume(jti: string) | RevokeAll(user: string)

  datatype Answer = Done | Told(outcome: Outcome)

  function Step(rows: Rows, op: Op): (Rows, Answer) {
    match op
    case Save(jti, user) => (Saved(rows, jti, user), Done)
    case Consume(jti) => var (after, outcome) := Consumed(rows, jti); (after, Told(outcome))
    case RevokeAll(user) => (Burned(rows, user), Done)
  }

  function After(ops: seq<Op>): Rows {
    if ops == [] then map[] else Step(After(ops[..|ops| - 1]), ops[|ops| - 1]).0
  }

  function AnswerAt(ops: seq<Op>, i: nat): Answer
    requires i < |ops|
  {
    Step(After(ops[..i]), ops[i]).1
  }

  function Answers(ops: seq<Op>): seq<Answer> {
    if ops == [] then []
    else Answers(ops[..|ops| - 1]) + [Step(After(ops[..|ops| - 1]), ops[|ops| - 1]).1]
  }

  // ---- Single use ----

  function Saves(ops: seq<Op>, jti: string): nat {
    if ops == [] then 0
    else
      var last := ops[|ops| - 1];
      Saves(ops[..|ops| - 1], jti) + if last.Save? && last.jti == jti then 1 else 0
  }

  function Acceptances(ops: seq<Op>, jti: string): nat {
    if ops == [] then 0
    else
      var before := ops[..|ops| - 1];
      var last := ops[|ops| - 1];
      Acceptances(before, jti)
      + if last.Consume? && last.jti == jti && Step(After(before), last).1.outcome.Accepted? then 1 else 0
  }

  /** In every run a token is accepted at most as often as it was saved, one less while it is live. */
  lemma {:induction false} AcceptedAtMostOncePerSave(ops: seq<Op>, jti: string)
    ensures Acceptances(ops, jti) + (if Live(After(ops), jti) then 1 else 0) <= Saves(ops, jti)
  {
    if ops != [] {
      AcceptedAtMostOncePerSave(ops[..|ops| - 1], jti);
    }
  }

  // ---- Family burns ----

  /** The i-th operation burns the user's family: a revoke-all, or a consume answered with a replay. */
  ghost predicate BurnsFamily(ops: seq<Op>, i: nat, user: string)
    requires i < |ops|
  {
    ops[i] == RevokeAll(user) || AnswerAt(ops, i) == Told(Replayed(user))
  }

  ghost predicate Spent(rows: Rows, jti: string, user: string) {
    jti in rows && rows[jti] == Row(user, true)
  }

  /** A spent token stays spent until it is saved again. */
  lemma {:induction false} SpentStays(ops: seq<Op>, i: nat, k: nat, jti: string, user: string)
    requires i <= k <= |ops|
    requires Spent(After(ops[..i]), jti, user)
    requires forall j | i <= j < k :: !(ops[j].Save? && ops[j].jti == jti)
    ensures Spent(After(ops[..k]), jti, user)
  {
    if i < k {
      SpentStays(ops, i, k - 1, jti, user);
      assert ops[..k][..k - 1] == ops[..k - 1];
    }
  }

  /** Once a replay or a revoke-all has burned a user's family, every token of that user saved before
      it is answered as a replay at each later use, until it is saved again. */
  lemma {:induction false} BurnedFamilyNeverAccepted(ops: seq<Op>, i: nat, k: nat, jti: string, user: string)
    requires i < k < |ops|
    requires BurnsFamily(ops, i, user)
    requires jti in After(ops[..i]) && After(ops[..i])[jti].user == user
    requires forall j | i < j < k :: !(ops[j].Save? && ops[j].jti == jti)
    requires ops[k] == Consume(jti)
    ensures AnswerAt(ops, k) == Told(Replayed(user))
  {
    assert ops[..i + 1][..i] == ops[..i];
    assert Spent(After(ops[..i + 1]), jti, user);
    SpentStays(ops, i + 1, k, jti, user);
  }

  // ---- What decides a consume ----

  /** The token was last saved, for the user, by the i-th operation. */
  ghost predicate LastSave(ops: seq<Op>, i: nat, jti: string, user: string) {
    && i < |ops| && ops[i] == Save(jti, user)
    && forall j | i < j < |ops| :: !(ops[j].Save? && ops[j].jti == jti)
  }

  /** Nothing since the i-th operation has presented the token or burned the user's family. */
  ghost predicate Unspent(ops: seq<Op>, i: nat, jti: string, user: string) {
    forall j | i < j < |ops| :: ops[j] != Consume(jti) && !BurnsFamily(ops, j, user)
  }

  /** The row of a token after a run, in terms of the run alone. */
  lemma {:induction false} RowAfterRun(ops: seq<Op>, i: nat, jti: string, user: string)
    requires LastSave(ops, i, jti, user)
    ensures jti in After(ops) && After(ops)[jti].user == user
    ensures After(ops)[jti].consumed <==> !Unspent(ops, i, jti, user)
    decreases |ops|
  {
    var before := ops[..|ops| - 1];
    var last := ops[|ops| - 1];
    if i < |before| {
      RowAfterRun(before, i, jti, user);
      RowAfterStep(After(before), last, jti, user);
      EarlierBurns(ops, user);
      assert BurnsFamily(ops, |before|, user) <==> BurnsNow(After(before), last, user);
    }
  }

  ghost predicate BurnsNow(rows: Rows, op: Op, user: string) {
    op == RevokeAll(user) || Step(rows, op).1 == Told(Replayed(user))
  }

  lemma {:induction false} RowAfterStep(rows: Rows, op: Op, jti: string, user: string)
    requires jti in rows && rows[jti].user == user && !(op.Save? && op.jti == jti)
    ensures var after := Step(rows, op).0;
            jti in after && after[jti].user == user
            && (after[jti].consumed <==> rows[jti].consumed || op == Consume(jti) || BurnsNow(rows, op, user))
  {
  }

  lemma {:induction false} EarlierBurns(ops: seq<Op>, user: string)
    requires ops != []
    ensures forall j | 0 <= j < |ops| - 1 :: BurnsFamily(ops[..|ops| - 1], j, user) <==> BurnsFamily(ops, j, user)
  {
    forall j | 0 <= j < |ops| - 1 ensures ops[..|ops| - 1][..j] == ops[..j] { }
  }

  lemma {:induction false} NeverSaved(ops: seq<Op>, jti: string)
    requires forall j | 0 <= j < |ops| :: !(ops[j].Save? && ops[j].jti == jti)
    ensures jti !in After(ops)
  {
    if ops != [] {
      NeverSaved(ops[..|ops| - 1], jti);
    }
  }

  /** The answer to a consume, decided by the run before it: unknown if the token was never saved; accepted,
      for the user of its last save, if nothing since has presented it or burned that user's family; a replay
      otherwise. */
  lemma {:induction false} ConsumeDecidedByRun(ops: seq<Op>, jti: string)
    ensures (forall j | 0 <= j < |ops| :: !(ops[j].Save? && ops[j].jti == jti)) ==>
              Consumed(After(ops), jti) == (After(ops), Unknown)
    ensures forall i, user | LastSave(ops, i, jti, user) ::
              Consumed(After(ops), jti).1 == if Unspent(ops, i, jti, user) then Accepted(user) else Replayed(user)
  {
    if forall j | 0 <= j < |ops| :: !(ops[j].Save? && ops[j].jti == jti) {
      NeverSaved(ops, jti);
    }
    forall i, user | LastSave(ops, i, jti, user)
      ensures Consumed(After(ops), jti).1 == if Unspent(ops, i, jti, user) then Accepted(user) else Replayed(user)
    {
      RowAfterRun(ops, i, jti, user);
    }
  }

  // ---- Non-interference ----

  /** Every save in the run stores its token for the owner assigned to it. */
  ghost predicate SavedForOwner(ops: seq<Op>, owner: string -> string) {
    forall i | 0 <= i < |ops| && ops[i].Save? :: ops[i].user == owner(ops[i].jti)
  }

  function UserOf(op: Op, owner: string -> string): string {
    match op
    case Save(_, user) => user
    case Consume(jti) => owner(jti)
    case RevokeAll(user) => user
  }

  /** The run without the operations on other users' tokens. */
  function OnlyUser(ops: seq<Op>, owner: string -> string, user: string): seq<Op> {
    if ops == [] then []
    else
      var last := ops[|ops| - 1];
      OnlyUser(ops[..|ops| - 1], owner, user) + if UserOf(last, owner) == user then [last] else []
  }

  /** The answers that the user's own operations receive in the full run. */
  function AnswersTo(ops: seq<Op>, owner: string -> string, user: string): seq<Answer> {
    if ops == [] then []
    else
      var before := ops[..|ops| - 1];
      var last := ops[|ops| - 1];
      AnswersTo(before, owner, user)
      + if UserOf(last, owner) == user then [Step(After(before), last).1] else []
  }

  function RowsOf(rows: Rows, user: string): Rows {
    map j | j in rows && rows[j].user == user :: rows[j]
  }

  ghost predicate RowsOwned(rows: Rows, owner: string -> string) {
    forall j | j in rows :: rows[j].user == owner(j)
  }

  lemma {:induction false} SaveOnOwnRows(rows: Rows, jti: string, u: string, user: string)
    requires jti in rows ==> rows[jti].user == u
    ensures RowsOf(Saved(rows, jti, u), user) == if u == user then Saved(RowsOf(rows, user), jti, u) else RowsOf(rows, user)
  {
  }

  lemma {:induction false} BurnOnOwnRows(rows: Rows, u: string, user: string)
    ensures RowsOf(Burned(rows, u), user) == if u == user then Burned(RowsOf(rows, user), u) else RowsOf(rows, user)
  {
  }

  lemma {:induction false} ConsumeOnOwnRows(rows: Rows, jti: string, user: string)
    ensures jti in rows && rows[jti].user == user ==>
              Consumed(RowsOf(rows, user), jti) == (RowsOf(Consumed(rows, jti).0, user), Consumed(rows, jti).1)
    ensures jti in rows && rows[jti].user != user ==> RowsOf(Consumed(rows, jti).0, user) == RowsOf(rows, user)
    ensures jti !in rows ==> Consumed(RowsOf(rows, user), jti) == (RowsOf(Consumed(rows, jti).0, user), Consumed(rows, jti).1)
  {
    if jti in rows {
      var u := rows[jti].user;
      BurnOnOwnRows(rows, u, user);
      var spent := rows[jti := Row(u, true)];
      assert RowsOf(spent, user) == if u == user then RowsOf(rows, user)[jti := Row(u, true)] else RowsOf(rows, user);
    }
  }

  lemma {:induction false} StepOnOwnRows(rows: Rows, op: Op, owner: string -> string, user: string)
    requires RowsOwned(rows, owner)
    requires op.Save? ==> op.user == owner(op.jti)
    ensures RowsOwned(Step(rows, op).0, owner)
    ensures UserOf(op, owner) != user ==> RowsOf(Step(rows, op).0, user) == RowsOf(rows, user)
    ensures UserOf(op, owner) == user ==>
              Step(RowsOf(rows, user), op) == (RowsOf(Step(rows, op).0, user), Step(rows, op).1)
  {
    match op
    case Save(jti, u) => SaveOnOwnRows(rows, jti, u, user);
    case Consume(jti) => ConsumeOnOwnRows(rows, jti, user);
    case RevokeAll(u) => BurnOnOwnRows(rows, u, user);
  }

  lemma {:induction false} RowsAlwaysOwned(ops: seq<Op>, owner: string -> string)
    requires SavedForOwner(ops, owner)
    ensures RowsOwned(After(ops), owner)
  {
    if ops != [] {
      RowsAlwaysOwned(ops[..|ops| - 1], owner);
      StepOnOwnRows(After(ops[..|ops| - 1]), ops[|ops| - 1], owner, "");
    }
  }

  /** With each token saved for one user only, deleting all operations on other users' tokens changes
      neither the answers to this user's operations nor this user's rows. */
  lemma {:induction false} OtherUsersDoNotInterfere(ops: seq<Op>, owner: string -> string, user: string)
    requires SavedForOwner(ops, owner)
    ensures Answers(OnlyUser(ops, owner, user)) == AnswersTo(ops, owner, user)
    ensures After(OnlyUser(ops, owner, user)) == RowsOf(After(ops), user)
  {
    if ops != [] {
      var before := ops[..|ops| - 1];
      var last := ops[|ops| - 1];
      var mine := OnlyUser(before, owner, user);
      OtherUsersDoNotInterfere(before, owner, user);
      RowsAlwaysOwned(before, owner);
      StepOnOwnRows(After(before), last, owner, user);
      if UserOf(last, owner) == user {
        assert (mine + [last])[..|mine|] == mine;
      } else {
        assert mine + [] == mine;
        assert AnswersTo(before, owner, user) + [] == AnswersTo(before, owner, user);
      }
    }
  }
}

/** The Postgres token protocol: consuming a token takes up to three separate SQL statements. */
module PostgresTokens {
  import opened Basics
  import opened Tokens

  // ---- The statements ----

  /** UPDATE ... SET consumed = TRUE WHERE jti = $1 AND consumed = FALSE RETURNING user_id */
  function UpdateReturning(rows: Rows, jti: string): (Rows, Option<string>) {
    if jti in rows && !rows[jti].consumed
    then (rows[jti := rows[jti].(consumed := true)], Some(rows[jti].user))
    else (rows, None)
  }

  /** SELECT user_id WHERE jti = $1 */
  function SelectUser(rows: Rows, jti: string): Option<string> {
    if jti in rows then Some(rows[jti].user) else None
  }

  class Postgres {
    var table: Rows

    constructor ()
      ensures table == map[]
    {
      table := map[];
    }

    method SaveRefreshToken(jti: string, user: string)
      modifies this
      ensures table == Saved(old(table), jti, user)
    {
      table := if jti in table then table[jti := table[jti].(consumed := false, user := user)]
               else table[jti := Row(user, false)];
    }

    /** Run without interference the three statements are Memory's single step. */
    method ConsumeRefreshToken(jti: string) returns (outcome: Outcome)
      modifies this
      ensures (table, outcome) == Consumed(old(table), jti)
    {
      var (updated, owner) := UpdateReturning(table, jti);
      table := updated;
      if owner.Some? {
        return Accepted(owner.value);
      }
      owner := SelectUser(table, jti);
      if owner.None? {
        return Unknown;
      }
      table := Burned(table, owner.value);
      outcome := Replayed(owner.value);
    }

    method RevokeAllRefreshTokens(user: string)
      modifies this
      ensures table == Burned(old(table), user)
    {
      table := Burned(table, user);
    }
  }

  // ---- Interleaved statements ----

  /** A consume between two of its statements: after the first update matched nothing, or after the
      select found the owner. */
  datatype Call = Missed(jti: string) | Seen(jti: string, user: string)

  datatype State = State(rows: Rows, calls: map<nat, Call>)

  const START := State(map[], map[])

  /** One SQL statement of one request. */
  datatype Statement =
    | SaveToken(jti: string, user: string)
    | RevokeFamily(user: string)
    | FirstUpdate(call: nat, jti: string)
    | Select(call: nat)
    | BurnUpdate(call: nat)

  ghost predicate NotPresented(s: State, jti: string) {
    forall r | r in s.calls :: s.calls[r].jti != jti
  }

  /** No token is saved while a consume that presents it is between its statements; the statements of a
      call come in order. */
  ghost predicate Enabled(s: State, st: Statement) {
    match st
    case SaveToken(jti, _) => NotPresented(s, jti)
    case RevokeFamily(_) => true
    case FirstUpdate(r, _) => r !in s.calls
    case Select(r) => r in s.calls && s.calls[r].Missed?
    case BurnUpdate(r) => r in s.calls && s.calls[r].Seen?
  }

  /** The state after a statement, and what a consume returns when the statement is its last. */
  function Execute(s: State, st: Statement): (State, Option<Outcome>) {
    match st
    case SaveToken(jti, user) => (s.(rows := Saved(s.rows, jti, user)), None)
    case RevokeFamily(user) => (s.(rows := Burned(s.rows, user)), None)
    case FirstUpdate(r, jti) =>
      var (rows, owner) := UpdateReturning(s.rows, jti);
      if owner.Some? then (s.(rows := rows), Some(Accepted(owner.value)))
      else (s.(rows := rows, calls := s.calls[r := Missed(jti)]), None)
    case Select(r) =>
      if r !in s.calls then (s, None)
      else
        var jti := s.calls[r].jti;
        var owner := SelectUser(s.rows, jti);
        if owner.None? then (s.(calls := s.calls - {r}), Some(Unknown))
        else (s.(calls := s.calls[r := Seen(jti, owner.value)]), None)
    case BurnUpdate(r) =>
      if r !in s.calls || !s.calls[r].Seen? then (s, None)
      else
        var user := s.calls[r].user;
        (State(Burned(s.rows, user), s.calls - {r}), Some(Replayed(user)))
  }

  function Final(run: seq<Statement>): State {
    if run == [] then START else Execute(Final(run[..|run| - 1]), run[|run| - 1]).0
  }

  ghost predicate Legal(run: seq<Statement>) {
    run == [] ||
    (Legal(run[..|run| - 1]) && Enabled(Final(run[..|run| - 1]), run[|run| - 1]))
  }

  /** The one-step operation a statement stands for, with the answer its caller is given and, for a
      consume, the call; a statement that does not finish its call stands for none. */
  datatype Event = Event(call: Option<nat>, op: Op, answer: Answer)

  function Linearized(s: State, st: Statement): seq<Event> {
    match st
    case SaveToken(jti, user) => [Event(None, Save(jti, user), Done)]
    case RevokeFamily(user) => [Event(None, RevokeAll(user), Done)]
    case FirstUpdate(r, jti) => Returned(r, jti, Execute(s, st).1)
    case Select(r) => if r in s.calls then Returned(r, s.calls[r].jti, Execute(s, st).1) else []
    case BurnUpdate(r) => if r in s.calls then Returned(r, s.calls[r].jti, Execute(s, st).1) else []
  }

  function Returned(r: nat, jti: string, outcome: Option<Outcome>): seq<Event> {
    if outcome.None? then [] else [Event(Some(r), Consume(jti), Told(outcome.value))]
  }

  function History(run: seq<Statement>): seq<Event> {
    if run == [] then []
    else History(run[..|run| - 1]) + Linearized(Final(run[..|run| - 1]), run[|run| - 1])
  }

  function Ops(h: seq<Event>): seq<Op> {
    seq(|h|, i requires 0 <= i < |h| => h[i].op)
  }

  function AnswersIn(h: seq<Event>): seq<Answer> {
    seq(|h|, i requires 0 <= i < |h| => h[i].answer)
  }

  // ---- Linearizability ----

  /** A call that missed presents no live token; a call about to burn has its own row consumed. */
  ghost predicate CallsCurrent(s: State) {
    forall r | r in s.calls ::
      match s.calls[r]
      case Missed(jti) => !Live(s.rows, jti)
      case Seen(jti, user) => Spent(s.rows, jti, user)
  }

  /** The burn statement is Memory's consume exactly when the call's row is still that user's and consumed. */
  lemma {:induction false} BurnIsReplayExactlyWhenSpent(rows: Rows, jti: string, user: string)
    ensures Consumed(rows, jti) == (Burned(rows, user), Replayed(user)) <==> Spent(rows, jti, user)
  {
  }

  lemma {:induction false} StatementLinearizes(s: State, st: Statement)
    requires CallsCurrent(s) && Enabled(s, st)
    ensures CallsCurrent(Execute(s, st).0)
    ensures var h := Linearized(s, st);
            if h == [] then Execute(s, st).0.rows == s.rows
            else |h| == 1 && Step(s.rows, h[0].op) == (Execute(s, st).0.rows, h[0].answer)
  {
  }

  lemma {:induction false} EventAppend(h: seq<Event>, e: Event)
    ensures After(Ops(h + [e])) == Step(After(Ops(h)), e.op).0
    ensures Answers(Ops(h + [e])) == Answers(Ops(h)) + [Step(After(Ops(h)), e.op).1]
    ensures AnswersIn(h + [e]) == AnswersIn(h) + [e.answer]
  {
    hide Step;
    assert Ops(h + [e]) == Ops(h) + [e.op];
    assert Ops(h + [e])[..|h|] == Ops(h);
  }

  /** Every interleaving of statements has the rows and the answers of its one-step history. */
  lemma {:induction false} PostgresLinearizes(run: seq<Statement>)
    requires Legal(run)
    ensures CallsCurrent(Final(run))
    ensures After(Ops(History(run))) == Final(run).rows
    ensures Answers(Ops(History(run))) == AnswersIn(History(run))
  {
    if run != [] {
      hide Execute, Linearized, CallsCurrent, After, Answers, Ops, AnswersIn, Step;
      var before := run[..|run| - 1];
      PostgresLinearizes(before);
      StatementLinearizes(Final(before), run[|run| - 1]);
      var h := History(before);
      var e := Linearized(Final(before), run[|run| - 1]);
      if e == [] {
        assert h + e == h;
      } else {
        assert e == [e[0]];
        EventAppend(h, e[0]);
      }
    }
  }

  // ---- Every consume, once ----

  /** How often the call was started to consume the token. */
  function Starts(run: seq<Statement>, r: nat, jti: string): nat {
    if run == [] then 0
    else Starts(run[..|run| - 1], r, jti) + if run[|run| - 1] == FirstUpdate(r, jti) then 1 else 0
  }

  predicate IsConsumeBy(e: Event, r: nat, jti: string) {
    e.call == Some(r) && e.op == Consume(jti)
  }

  function Finishes(h: seq<Event>, r: nat, jti: string): nat {
    if h == [] then 0
    else Finishes(h[..|h| - 1], r, jti) + if IsConsumeBy(h[|h| - 1], r, jti) then 1 else 0
  }

  /** Whether the call is between its statements, consuming the token. */
  predicate InFlight(s: State, r: nat, jti: string) {
    r in s.calls && s.calls[r].jti == jti
  }

  lemma {:induction false} FinishesAppend(h: seq<Event>, e: seq<Event>, r: nat, jti: string)
    requires |e| <= 1
    ensures Finishes(h + e, r, jti) == Finishes(h, r, jti) + Finishes(e, r, jti)
  {
    if e == [] { assert h + e == h; } else { assert (h + e)[..|h|] == h; }
  }

  lemma {:induction false} StatementAccountsForCall(s: State, st: Statement, r: nat, jti: string)
    requires Enabled(s, st)
    ensures |Linearized(s, st)| <= 1
    ensures (if InFlight(Execute(s, st).0, r, jti) then 1 else 0) + Finishes(Linearized(s, st), r, jti)
         == (if InFlight(s, r, jti) then 1 else 0) + if st == FirstUpdate(r, jti) then 1 else 0
  {
  }

  /** After every run each call has finished each of its consumes exactly once, but for one that is still
      between its statements. As this holds after every prefix, a call's finish follows its start. */
  lemma {:induction false} EveryConsumeLinearizesOnce(run: seq<Statement>, r: nat, jti: string)
    requires Legal(run)
    ensures Starts(run, r, jti) == Finishes(History(run), r, jti) + if InFlight(Final(run), r, jti) then 1 else 0
  {
    if run != [] {
      hide Execute, Linearized, Enabled, InFlight;
      var before := run[..|run| - 1];
      EveryConsumeLinearizesOnce(before, r, jti);
      StatementAccountsForCall(Final(before), run[|run| - 1], r, jti);
      FinishesAppend(History(before), Linearized(Final(before), run[|run| - 1]), r, jti);
    }
  }

  // ---- Single use ----

  function SavesIn(run: seq<Statement>, jti: string): nat {
    if run == [] then 0
    else
      var last := run[|run| - 1];
      SavesIn(run[..|run| - 1], jti) + if last.SaveToken? && last.jti == jti then 1 else 0
  }

  lemma {:induction false} SavesAppend(h: seq<Event>, e: seq<Event>, jti: string)
    requires |e| <= 1
    ensures Saves(Ops(h + e), jti) == Saves(Ops(h), jti) + Saves(Ops(e), jti)
  {
    if e == [] { assert h + e == h; } else { assert Ops(h + e) == Ops(h) + Ops(e) && Ops(h + e)[..|h|] == Ops(h); }
  }

  lemma {:induction false} StatementSaves(s: State, st: Statement, jti: string)
    ensures |Linearized(s, st)| <= 1
    ensures Saves(Ops(Linearized(s, st)), jti) == if st.SaveToken? && st.jti == jti then 1 else 0
  {
  }

  lemma {:induction false} SavesAreStatements(run: seq<Statement>, jti: string)
    ensures Saves(Ops(History(run)), jti) == SavesIn(run, jti)
  {
    if run != [] {
      hide Execute, Linearized, Saves, Ops;
      var before := run[..|run| - 1];
      var st := run[|run| - 1];
      SavesAreStatements(before, jti);
      StatementSaves(Final(before), st, jti);
      SavesAppend(History(before), Linearized(Final(before), st), jti);
    }
  }

  /** In no interleaving of statements is a token accepted more often than it was saved. */
  lemma {:induction false} AcceptedAtMostOnce(run: seq<Statement>, jti: string)
    requires Legal(run)
    ensures Acceptances(Ops(History(run)), jti) <= SavesIn(run, jti)
  {
    SavesAreStatements(run, jti);
    AcceptedAtMostOncePerSave(Ops(History(run)), jti);
  }

  // ---- The hypothesis on saves ----

  /** A save keeps every call in flight current if and only if none of them presents the saved token. */
  lemma {:induction false} SaveKeepsCallsExactlyWhenNotPresented(s: State, jti: string, user: string)
    requires CallsCurrent(s)
    ensures CallsCurrent(Execute(s, SaveToken(jti, user)).0) <==> NotPresented(s, jti)
  {
  }

  /** The remaining statements of a call, with nothing in between. */
  function Completed(s: State, r: nat): (State, Option<Outcome>)
    requires r in s.calls
  {
    if s.calls[r].Seen? then Execute(s, BurnUpdate(r))
    else
      var (t, outcome) := Execute(s, Select(r));
      if outcome.Some? then (t, outcome) else Execute(t, BurnUpdate(r))
  }

  /** When a token is saved in the middle of a consume of it, the consume still fits before or after the
      save if and only if the call has read its owner and the token is saved for someone else. */
  lemma {:induction false} SaveDuringConsumeFitsExactlyWhen(s: State, r: nat, user: string)
    requires CallsCurrent(s) && r in s.calls
    ensures var jti := s.calls[r].jti;
            var (t, outcome) := Completed(Execute(s, SaveToken(jti, user)).0, r);
            var (spent, before) := Consumed(s.rows, jti);
            var (after, late) := Consumed(Saved(s.rows, jti, user), jti);
            ((t.rows, outcome) == (Saved(spent, jti, user), Some(before)) || (t.rows, outcome) == (after, Some(late)))
            <==> s.calls[r].Seen? && s.calls[r].user != user
  {
    var jti := s.calls[r].jti;
    var saved := Execute(s, SaveToken(jti, user)).0;
    if s.calls[r].Seen? {
      var u := s.calls[r].user;
      assert Consumed(s.rows, jti) == (Burned(s.rows, u), Replayed(u));
      if u != user {
        assert Burned(saved.rows, u) == Saved(Burned(s.rows, u), jti, user);
      }
    }
    assert Live(Saved(Consumed(s.rows, jti).0, jti, user), jti);
  }

  /** The hypothesis is needed: a save that lands between the first update and the select makes the
      consume report a replay, which neither order of the two operations reports. */
  lemma {:induction false} SaveDuringConsumeIsNotLinearizable(jti: string, user: string)
    ensures var s1 := Execute(START, FirstUpdate(0, jti)).0;
            var s2 := Execute(s1, SaveToken(jti, user)).0;
            var s3 := Execute(s2, Select(0)).0;
            && !Enabled(s1, SaveToken(jti, user))
            && Execute(s3, BurnUpdate(0)).1 == Some(Replayed(user))
            && AnswerAt([Save(jti, user), Consume(jti)], 1) == Told(Accepted(user))
            && AnswerAt([Consume(jti), Save(jti, user)], 0) == Told(Unknown)
  {
  }
}

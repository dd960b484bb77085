/** The session handlers over the Postgres store, one SQL statement at a time: every interleaving has the
    sessions of an interleaving of whole store calls. */
module PostgresSessions {
  import opened Basics
  import opened Tokens
  import opened Sessions
  import Db = PostgresTokens

  /** The sessions, the consumes between their statements, and the claims each of these presents. */
  datatype Server = Server(session: State, calls: map<nat, Db.Call>, presented: map<nat, Claims>)

  const EMPTY := Server(START, map[], map[])

  /** A consume is three statements; every other action of a handler is one statement or none. */
  datatype Step =
    | Whole(action: Action)
    | Update(call: nat, claims: Claims)
    | Select(call: nat)
    | Burn(call: nat)

  function Table(s: Server): Db.State {
    Db.State(s.session.rows, s.calls)
  }

  function StatementOf(st: Step): Db.Statement
    requires !st.Whole?
  {
    match st
    case Update(r, claims) => Db.FirstUpdate(r, claims.jti)
    case Select(r) => Db.Select(r)
    case Burn(r) => Db.BurnUpdate(r)
  }

  ghost predicate Allowed(s: Server, st: Step) {
    match st
    case Whole(a) => !a.ConsumePresented? && Enabled(s.session, a)
    case Update(r, claims) => r !in s.calls && r !in s.session.rotations && claims in s.session.issued
    case _ => Db.Enabled(Table(s), StatementOf(st))
  }

  function Perform(s: Server, st: Step): Server {
    match st
    case Whole(a) => s.(session := Execute(s.session, a))
    case Update(r, claims) =>
      var (table, outcome) := Db.Execute(Table(s), StatementOf(st));
      var session := s.session.(rows := table.rows);
      if outcome == Some(Accepted(claims.user))
      then Server(session.(rotations := session.rotations[r := claims]), table.calls, s.presented)
      else Server(session, table.calls, s.presented[r := claims])
    case _ =>
      var table := Db.Execute(Table(s), StatementOf(st)).0;
      s.(session := s.session.(rows := table.rows), calls := table.calls)
  }

  function After(run: seq<Step>): Server {
    if run == [] then EMPTY else Perform(After(run[..|run| - 1]), run[|run| - 1])
  }

  ghost predicate Orderly(run: seq<Step>) {
    run == [] || (Orderly(run[..|run| - 1]) && Allowed(After(run[..|run| - 1]), run[|run| - 1]))
  }

  /** The action of whole store calls that a statement completes, if it completes one. */
  function Completes(s: Server, st: Step): seq<Action> {
    match st
    case Whole(a) => [a]
    case Update(r, claims) => if Db.Execute(Table(s), StatementOf(st)).1.Some? then [ConsumePresented(r, claims)] else []
    case Select(_) => []
    case Burn(r) => if r in s.presented then [ConsumePresented(r, s.presented[r])] else []
  }

  function Actions(run: seq<Step>): seq<Action> {
    if run == [] then []
    else Actions(run[..|run| - 1]) + Completes(After(run[..|run| - 1]), run[|run| - 1])
  }

  /** Every consume in flight presents a token that was handed out, and its call is no rotation yet. */
  ghost predicate CallsPresent(s: Server) {
    forall r | r in s.calls ::
      && r in s.presented && s.presented[r] in s.session.issued
      && s.presented[r].jti == s.calls[r].jti
      && r !in s.session.rotations
  }

  ghost predicate Sane(s: Server) {
    Chained(s.session) && Db.CallsCurrent(Table(s)) && CallsPresent(s)
  }

  // ---- Each statement is one action or none ----

  lemma {:induction false} PresentedIsSaved(s: Server, r: nat)
    requires Sane(s) && r in s.calls
    ensures s.calls[r].jti in s.session.rows && s.session.rows[s.calls[r].jti].user == s.presented[r].user
  {
  }

  /** Fresh tokens are presented by nobody, so an action other than a consume keeps the rows in use. */
  lemma {:induction false} ActionKeepsRow(s: State, a: Action, jti: string)
    requires !a.ConsumePresented? && Enabled(s, a) && jti in s.rows
    ensures var t := Execute(s, a);
            && jti in t.rows && t.rows[jti].user == s.rows[jti].user && (s.rows[jti].consumed ==> t.rows[jti].consumed)
            && t.rotations.Keys <= s.rotations.Keys && s.issued <= t.issued
  {
  }

  /** What Sane says of one call, over a possibly later session. */
  ghost predicate CallFits(t: State, s: Server, r: nat) {
    && r in s.presented && s.presented[r] in t.issued && r !in t.rotations
    && (r in s.calls ==>
          && s.presented[r].jti == s.calls[r].jti
          && (s.calls[r].Missed? ==> !Live(t.rows, s.calls[r].jti))
          && (s.calls[r].Seen? ==> Spent(t.rows, s.calls[r].jti, s.calls[r].user)))
  }

  lemma {:induction false} ActionKeepsCall(s: Server, a: Action, r: nat)
    requires Sane(s) && Allowed(s, Whole(a)) && r in s.calls
    ensures CallFits(Execute(s.session, a), s, r)
  {
    PresentedIsSaved(s, r);
    ActionKeepsRow(s.session, a, s.calls[r].jti);
    hide Chained, Execute, Enabled;
  }

  lemma {:induction false} FittingCalls(s: Server, t: State)
    requires Chained(t) && forall r | r in s.calls :: CallFits(t, s, r)
    ensures Sane(s.(session := t))
  {
    hide Chained;
  }

  lemma {:induction false} WholeSimulates(s: Server, a: Action)
    requires Sane(s) && Allowed(s, Whole(a))
    ensures Sane(Perform(s, Whole(a)))
  {
    assert Chained(s.session);
    hide Chained, Execute, Enabled, Sane, CallFits;
    ActionKeepsChains(s.session, a);
    forall r | r in s.calls ensures CallFits(Execute(s.session, a), s, r) {
      ActionKeepsCall(s, a, r);
    }
    FittingCalls(s, Execute(s.session, a));
  }

  lemma {:induction false} UpdateSimulates(s: Server, r: nat, claims: Claims)
    requires Sane(s) && Allowed(s, Update(r, claims))
    ensures Enabled(s.session, ConsumePresented(r, claims))
    ensures var t := Perform(s, Update(r, claims));
            t.session == if Completes(s, Update(r, claims)) == [] then s.session
                         else Execute(s.session, ConsumePresented(r, claims))
  {
    IssuedTokenNamesItsOwner(s.session, claims);
    Db.StatementLinearizes(Table(s), Db.FirstUpdate(r, claims.jti));
    hide Chained;
  }

  lemma {:induction false} BurnSimulates(s: Server, r: nat)
    requires Sane(s) && Allowed(s, Burn(r))
    ensures Enabled(s.session, ConsumePresented(r, s.presented[r]))
    ensures Perform(s, Burn(r)).session == Execute(s.session, ConsumePresented(r, s.presented[r]))
  {
    Db.StatementLinearizes(Table(s), Db.BurnUpdate(r));
    hide Chained;
  }

  lemma {:induction false} SelectChangesNoSession(s: Server, r: nat)
    requires Sane(s) && Allowed(s, Select(r))
    ensures Perform(s, Select(r)).session == s.session
  {
    hide Chained;
  }

  lemma {:induction false} StatementKeepsPresented(s: Server, st: Step)
    requires Sane(s) && Allowed(s, st) && !st.Whole?
    ensures CallsPresent(Perform(s, st))
    ensures Table(Perform(s, st)) == Db.Execute(Table(s), StatementOf(st)).0
  {
    hide Chained;
  }

  /** Every statement keeps the sessions in order, and is one action of whole store calls or none. */
  lemma {:induction false} StatementSimulates(s: Server, st: Step)
    requires Sane(s) && Allowed(s, st)
    ensures Sane(Perform(s, st))
    ensures var actions := Completes(s, st);
            if actions == [] then Perform(s, st).session == s.session
            else |actions| == 1 && Enabled(s.session, actions[0]) && Perform(s, st).session == Execute(s.session, actions[0])
  {
    match st
    case Whole(a) => WholeSimulates(s, a);
    case Update(r, claims) =>
      UpdateSimulates(s, r, claims);
      UpdateKeepsSane(s, st, claims);
    case Select(r) =>
      SelectChangesNoSession(s, r);
      UpdateKeepsSane(s, st, Claims("", ""));
    case Burn(r) =>
      BurnSimulates(s, r);
      UpdateKeepsSane(s, st, s.presented[r]);
  }

  lemma {:induction false} UpdateKeepsSane(s: Server, st: Step, claims: Claims)
    requires Sane(s) && Allowed(s, st) && !st.Whole?
    requires Perform(s, st).session == s.session
          || (Enabled(s.session, ConsumePresented(st.call, claims))
              && Perform(s, st).session == Execute(s.session, ConsumePresented(st.call, claims)))
    ensures Sane(Perform(s, st))
  {
    hide Perform, Chained, Execute, Enabled;
    StatementKeepsPresented(s, st);
    Db.StatementLinearizes(Table(s), StatementOf(st));
    if Perform(s, st).session != s.session {
      ActionKeepsChains(s.session, ConsumePresented(st.call, claims));
    }
  }

  // ---- Whole runs ----

  lemma {:induction false} EmptySane()
    ensures Sane(EMPTY)
  {
  }

  lemma {:induction false} ActionAppends(run: seq<Action>, a: Action)
    ensures Final(run + [a]) == Execute(Final(run), a)
    ensures Legal(run + [a]) <==> Legal(run) && Enabled(Final(run), a)
    ensures forall user :: Logins(run + [a], user) == Logins(run, user) + if a.SaveLogin? && a.user == user then 1 else 0
  {
    hide Execute, Enabled;
    assert (run + [a])[..|run|] == run;
  }

  /** Every interleaving of statements reaches the sessions of a legal interleaving of whole store calls. */
  lemma {:induction false} RunSimulates(run: seq<Step>)
    requires Orderly(run)
    ensures Sane(After(run)) && Legal(Actions(run)) && Final(Actions(run)) == After(run).session
  {
    if run == [] {
      EmptySane();
    } else {
      hide Sane, Allowed, Perform, Completes, Execute, Enabled, Legal, Final;
      var before := run[..|run| - 1];
      var st := run[|run| - 1];
      RunSimulates(before);
      StatementSimulates(After(before), st);
      var actions := Completes(After(before), st);
      if actions == [] {
        assert Actions(before) + [] == Actions(before);
      } else {
        ActionAppends(Actions(before), actions[0]);
        assert actions == [actions[0]];
      }
    }
  }

  function LoginsIn(run: seq<Step>, user: string): nat {
    if run == [] then 0
    else
      var last := run[|run| - 1];
      LoginsIn(run[..|run| - 1], user)
      + if last.Whole? && last.action.SaveLogin? && last.action.user == user then 1 else 0
  }

  lemma {:induction false} OnlyWholeLogins(s: Server, st: Step)
    ensures |Completes(s, st)| <= 1 && (st.Whole? ==> Completes(s, st) == [st.action])
    ensures forall a | a in Completes(s, st) :: a.SaveLogin? ==> st == Whole(a)
  {
  }

  lemma {:induction false} SameLogins(run: seq<Step>, user: string)
    ensures Logins(Actions(run), user) == LoginsIn(run, user)
  {
    if run != [] {
      hide Perform, Execute, Logins, Completes;
      var before := run[..|run| - 1];
      SameLogins(before, user);
      OnlyWholeLogins(After(before), run[|run| - 1]);
      var actions := Completes(After(before), run[|run| - 1]);
      if actions == [] {
        assert Actions(before) + [] == Actions(before);
      } else {
        ActionAppends(Actions(before), actions[0]);
        assert actions == [actions[0]];
      }
    }
  }

  /** Over Postgres, however the statements of logins, refreshes, logouts and burns interleave, a user's
      live tokens and rotations in flight never outnumber that user's logins. */
  lemma {:induction false} SessionsNeverExceedLoginsOverPostgres(run: seq<Step>, user: string)
    requires Orderly(run)
    ensures |LiveOf(After(run).session.rows, user)| + |RotatingOf(After(run).session, user)| <= LoginsIn(run, user)
  {
    RunSimulates(run);
    SameLogins(run, user);
    SessionsNeverExceedLogins(Actions(run), user);
  }
}

/** Sessions of the HTTP layer: login, refresh and logout, and the rotation chains they build. */
module Sessions {
  import opened Basics
  import opened Counting
  import opened Tokens
  import opened Store

  /** The claims of a verified refresh token. */
  datatype Claims = Claims(user: string, jti: string)

  /** What one whole refresh does to the rows, and the token it hands out. */
  function Refreshed(rows: Rows, presented: Claims, jti: string): (Rows, Option<Claims>) {
    var (spent, outcome) := Consumed(rows, presented.jti);
    if outcome == Accepted(presented.user)
    then (Saved(spent, jti, presented.user), Some(Claims(presented.user, jti)))
    else (spent, None)
  }

  /** A refresh hands out a token exactly for a live token of the user in its claims. What it hands out is
      new, live and that user's, so it is accepted when presented next; the old token is then a replay. */
  lemma {:induction false} RefreshHandsOutLiveToken(rows: Rows, presented: Claims, jti: string)
    requires jti !in rows
    ensures var (after, token) := Refreshed(rows, presented, jti);
            && (token.Some? <==> Live(rows, presented.jti) && rows[presented.jti].user == presented.user)
            && (token.Some? ==>
                  && token.value.jti !in rows && Live(after, token.value.jti)
                  && after[token.value.jti].user == token.value.user == presented.user
                  && Consumed(after, token.value.jti).1 == Accepted(presented.user)
                  && Consumed(after, presented.jti).1 == Replayed(presented.user))
  {
  }

  /** A refresh that hands out nothing saves nothing: an unknown token changes no row, a spent one burns its
      owner's family, and a live one of another user is spent. */
  lemma {:induction false} RefusedRefreshSavesNothing(rows: Rows, presented: Claims, jti: string)
    requires jti !in rows && Refreshed(rows, presented, jti).1.None?
    ensures var after := Refreshed(rows, presented, jti).0;
            && after.Keys == rows.Keys
            && (presented.jti !in rows ==> after == rows)
            && (presented.jti in rows ==>
                  forall j | j in rows ::
                    after[j] == if j == presented.jti
                                   || (rows[presented.jti].consumed && rows[j].user == rows[presented.jti].user)
                                then Row(rows[j].user, true) else rows[j])
  {
  }

  /** A client that always presents the newest token, one whole refresh after the other. */
  function RefreshedAll(rows: Rows, token: Claims, jtis: seq<string>): (Rows, Option<Claims>)
    decreases |jtis|
  {
    if jtis == [] then (rows, Some(token))
    else
      var (after, next) := Refreshed(rows, token, jtis[0]);
      if next.None? then (after, None) else RefreshedAll(after, next.value, jtis[1..])
  }

  /** Such a client stays logged in through any number of refreshes, and its last token is live. */
  lemma {:induction false} HonestClientStaysLoggedIn(rows: Rows, token: Claims, jtis: seq<string>)
    requires Live(rows, token.jti) && rows[token.jti].user == token.user
    requires forall i | 0 <= i < |jtis| :: jtis[i] !in rows
    requires forall i, j | 0 <= i < j < |jtis| :: jtis[i] != jtis[j]
    ensures var (after, last) := RefreshedAll(rows, token, jtis);
            last.Some? && last.value.user == token.user
            && Live(after, last.value.jti) && after[last.value.jti].user == token.user
    decreases |jtis|
  {
    if jtis != [] {
      RefreshHandsOutLiveToken(rows, token, jtis[0]);
      var (after, next) := Refreshed(rows, token, jtis[0]);
      HonestClientStaysLoggedIn(after, next.value, jtis[1..]);
    }
  }

  // ---- The handlers, each run as a whole ----

  class SessionHandlers {
    const store: Memory

    constructor (store: Memory)
      ensures this.store == store
    {
      this.store := store;
    }

    /** The session part of issueTokenPair: the refresh token leaves only once its row is saved. */
    method IssueTokenPair(user: string, jti: string) returns (token: Claims)
      modifies store`refresh
      ensures token == Claims(user, jti)
      ensures store.refresh == Saved(old(store.refresh), jti, user)
    {
      store.SaveRefreshToken(jti, user);
      token := Claims(user, jti);
    }

    /** login, after the password has been accepted. */
    method Login(user: string, jti: string) returns (token: Claims)
      modifies store`refresh
      ensures token == Claims(user, jti)
      ensures store.refresh == Saved(old(store.refresh), jti, user)
    {
      token := IssueTokenPair(user, jti);
    }

    /** refresh: a token that does not verify is None. */
    method Refresh(presented: Option<Claims>, jti: string) returns (token: Option<Claims>)
      modifies store`refresh
      ensures presented.None? ==> token.None? && store.refresh == old(store.refresh)
      ensures presented.Some? ==>
                (store.refresh, token) == Refreshed(old(store.refresh), presented.value, jti)
    {
      if presented.None? {
        return None;
      }
      var outcome := store.ConsumeRefreshToken(presented.value.jti);
      if !outcome.Accepted? || outcome.user != presented.value.user {
        return None;
      }
      var next := IssueTokenPair(presented.value.user, jti);
      token := Some(next);
    }

    method Logout(user: string)
      modifies store`refresh
      ensures store.refresh == Burned(old(store.refresh), user)
    {
      store.RevokeAllRefreshTokens(user);
    }
  }

  // ---- Interleaved handlers ----

  /** The tokens descended from one login: so many were saved, one after the other. */
  datatype Chain = Chain(user: string, length: nat)

  /** The index-th token of a chain. */
  datatype Place = Place(chain: nat, index: nat)

  /** rows is the store; rotations holds the claims consumed by refreshes that have not saved yet;
      issued holds the tokens handed out. chains and place record history and influence nothing. */
  datatype State = State(
    rows: Rows, rotations: map<nat, Claims>, issued: set<Claims>,
    chains: seq<Chain>, place: map<string, Place>)

  const START := State(map[], map[], {}, [], map[])

  /** One store call of one handler. */
  datatype Action =
    | SaveLogin(user: string, jti: string)
    | ConsumePresented(call: nat, presented: Claims)
    | SaveRotated(call: nat, jti: string)
    | Abandon(call: nat)
    | RevokeUser(user: string)

  /** Saved jtis are fresh; only tokens that were handed out verify. */
  ghost predicate Enabled(s: State, a: Action) {
    match a
    case SaveLogin(_, jti) => jti !in s.rows
    case ConsumePresented(r, claims) => r !in s.rotations && claims in s.issued
    case SaveRotated(r, jti) => r in s.rotations && jti !in s.rows
    case Abandon(r) => r in s.rotations
    case RevokeUser(_) => true
  }

  function Execute(s: State, a: Action): State {
    match a
    case SaveLogin(user, jti) =>
      State(Saved(s.rows, jti, user), s.rotations, s.issued + {Claims(user, jti)},
            s.chains + [Chain(user, 1)], s.place[jti := Place(|s.chains|, 0)])
    case ConsumePresented(r, claims) =>
      var (rows, outcome) := Consumed(s.rows, claims.jti);
      if outcome == Accepted(claims.user) then s.(rows := rows, rotations := s.rotations[r := claims])
      else s.(rows := rows)
    case SaveRotated(r, jti) =>
      if r !in s.rotations then s
      else
        var used := s.rotations[r];
        var saved := s.(rows := Saved(s.rows, jti, used.user), rotations := s.rotations - {r},
                        issued := s.issued + {Claims(used.user, jti)});
        if used.jti !in s.place || s.place[used.jti].chain >= |s.chains| then saved
        else
          var c := s.place[used.jti].chain;
          var n := s.chains[c].length;
          saved.(chains := s.chains[c := s.chains[c].(length := n + 1)],
                 place := s.place[jti := Place(c, n)])
    case Abandon(r) => s.(rotations := s.rotations - {r})
    case RevokeUser(user) => s.(rows := Burned(s.rows, user))
  }

  /** The state after a run of actions that starts in s. */
  function FinalFrom(s: State, run: seq<Action>): State {
    if run == [] then s else Execute(FinalFrom(s, run[..|run| - 1]), run[|run| - 1])
  }

  ghost predicate LegalFrom(s: State, run: seq<Action>) {
    run == [] || (LegalFrom(s, run[..|run| - 1]) && Enabled(FinalFrom(s, run[..|run| - 1]), run[|run| - 1]))
  }

  function Final(run: seq<Action>): State {
    FinalFrom(START, run)
  }

  ghost predicate Legal(run: seq<Action>) {
    LegalFrom(START, run)
  }

  // ---- Chains ----

  /** jti is the newest token of its chain. */
  ghost predicate Tail(place: map<string, Place>, chains: seq<Chain>, jti: string) {
    jti in place && place[jti].chain < |chains| && place[jti].index + 1 == chains[place[jti].chain].length
  }

  /** Every token ever saved has one place, its own, in the chain of the login it descends from. */
  ghost predicate Partition(rows: Rows, place: map<string, Place>, chains: seq<Chain>) {
    && place.Keys == rows.Keys
    && (forall j | j in place ::
          && place[j].chain < |chains|
          && place[j].index < chains[place[j].chain].length
          && chains[place[j].chain].user == rows[j].user)
    && (forall j, k | j in place && k in place && place[j] == place[k] :: j == k)
  }

  ghost predicate LiveAreTails(rows: Rows, place: map<string, Place>, chains: seq<Chain>) {
    forall j | Live(rows, j) :: Tail(place, chains, j)
  }

  /** Every rotation in flight consumed the tail of a chain, and no other rotation has the same one. */
  ghost predicate RotationsAreTails(
      rows: Rows, place: map<string, Place>, chains: seq<Chain>, rotations: map<nat, Claims>) {
    && (forall r | r in rotations ::
          Tail(place, chains, rotations[r].jti) && Spent(rows, rotations[r].jti, rotations[r].user))
    && (forall r, q | r in rotations && q in rotations && rotations[r].jti == rotations[q].jti :: r == q)
  }

  ghost predicate IssuedAreSaved(rows: Rows, issued: set<Claims>) {
    forall claims | claims in issued :: claims.jti in rows && rows[claims.jti].user == claims.user
  }

  ghost predicate Chained(s: State) {
    && Partition(s.rows, s.place, s.chains)
    && LiveAreTails(s.rows, s.place, s.chains)
    && RotationsAreTails(s.rows, s.place, s.chains, s.rotations)
    && IssuedAreSaved(s.rows, s.issued)
  }

  /** No row appears, changes owner or becomes live. */
  ghost predicate OnlySpends(before: Rows, after: Rows) {
    && after.Keys == before.Keys
    && forall j | j in before :: after[j].user == before[j].user && (before[j].consumed ==> after[j].consumed)
  }

  lemma {:induction false} SpendingKeepsChains(s: State, rows: Rows)
    requires Chained(s) && OnlySpends(s.rows, rows)
    ensures Chained(s.(rows := rows))
  {
  }

  lemma {:induction false} ConsumeKeepsChains(s: State, r: nat, claims: Claims)
    requires Chained(s) && Enabled(s, ConsumePresented(r, claims))
    ensures Chained(Execute(s, ConsumePresented(r, claims)))
  {
    hide Chained;
    var (rows, outcome) := Consumed(s.rows, claims.jti);
    ConsumeOnlySpends(s.rows, claims.jti);
    SpendingKeepsChains(s, rows);
    if outcome == Accepted(claims.user) {
      AcceptedWasTail(s, claims);
      RotationStarted(s.(rows := rows), r, claims);
    }
  }

  lemma {:induction false} ConsumeOnlySpends(rows: Rows, jti: string)
    ensures OnlySpends(rows, Consumed(rows, jti).0)
  {
  }

  lemma {:induction false} LiveNotRotating(s: State, jti: string)
    requires Chained(s) && Live(s.rows, jti)
    ensures Tail(s.place, s.chains, jti) && forall r | r in s.rotations :: s.rotations[r].jti != jti
  {
  }

  /** An accepted token was live, so the tail of its chain and in no other rotation. */
  lemma {:induction false} AcceptedWasTail(s: State, claims: Claims)
    requires Chained(s) && Consumed(s.rows, claims.jti).1 == Accepted(claims.user)
    ensures Tail(s.place, s.chains, claims.jti)
    ensures Spent(Consumed(s.rows, claims.jti).0, claims.jti, claims.user)
    ensures forall q | q in s.rotations :: s.rotations[q].jti != claims.jti
  {
  }

  lemma {:induction false} RotationStarted(s: State, r: nat, claims: Claims)
    requires Chained(s) && r !in s.rotations
    requires Tail(s.place, s.chains, claims.jti) && Spent(s.rows, claims.jti, claims.user)
    requires forall q | q in s.rotations :: s.rotations[q].jti != claims.jti
    ensures Chained(s.(rotations := s.rotations[r := claims]))
  {
  }

  lemma {:induction false} RotationEnded(s: State, r: nat)
    requires Chained(s)
    ensures Chained(s.(rotations := s.rotations - {r}))
  {
  }

  // ---- A login opens a chain, a rotation extends one ----

  lemma {:induction false} ChainOpened(rows: Rows, place: map<string, Place>, chains: seq<Chain>, jti: string, user: string)
    requires Partition(rows, place, chains) && jti !in rows
    ensures Partition(Saved(rows, jti, user), place[jti := Place(|chains|, 0)], chains + [Chain(user, 1)])
  {
  }

  lemma {:induction false} OpeningKeepsTails(
      rows: Rows, place: map<string, Place>, chains: seq<Chain>, jti: string, user: string, j: string)
    requires Partition(rows, place, chains) && jti !in rows
    ensures Tail(place[jti := Place(|chains|, 0)], chains + [Chain(user, 1)], j) <==> j == jti || Tail(place, chains, j)
  {
  }

  lemma {:induction false} ChainExtended(rows: Rows, place: map<string, Place>, chains: seq<Chain>, jti: string, c: nat)
    requires Partition(rows, place, chains) && jti !in rows && c < |chains|
    ensures var n := chains[c].length;
            Partition(Saved(rows, jti, chains[c].user), place[jti := Place(c, n)], chains[c := Chain(chains[c].user, n + 1)])
  {
  }

  /** Extending a chain replaces its tail and keeps all others. */
  lemma {:induction false} ExtendingMovesTail(
      rows: Rows, place: map<string, Place>, chains: seq<Chain>, jti: string, previous: string, j: string)
    requires Partition(rows, place, chains) && jti !in rows && Tail(place, chains, previous)
    ensures var c := place[previous].chain; var n := chains[c].length;
            Tail(place[jti := Place(c, n)], chains[c := Chain(chains[c].user, n + 1)], j)
            <==> j == jti || (Tail(place, chains, j) && j != previous)
  {
  }

  /** Saving a fresh token that becomes a tail, while every tail but that of a finished rotation stays. */
  lemma {:induction false} SaveKeepsTails(
      s: State, place: map<string, Place>, chains: seq<Chain>, rotations: map<nat, Claims>, jti: string, user: string)
    requires Chained(s) && jti !in s.rows
    requires forall r | r in rotations :: r in s.rotations && rotations[r] == s.rotations[r]
    requires Tail(place, chains, jti)
    requires forall j | Tail(s.place, s.chains, j) && !Tail(place, chains, j) ::
               exists r :: r in s.rotations && r !in rotations && s.rotations[r].jti == j
    ensures LiveAreTails(Saved(s.rows, jti, user), place, chains)
    ensures RotationsAreTails(Saved(s.rows, jti, user), place, chains, rotations)
  {
    hide Tail, Partition, IssuedAreSaved;
    var rows := Saved(s.rows, jti, user);
    forall j | Live(rows, j) ensures Tail(place, chains, j) {
      if j != jti {
        LiveNotRotating(s, j);
      }
    }
    forall r | r in rotations ensures Tail(place, chains, rotations[r].jti) && Spent(rows, rotations[r].jti, rotations[r].user) {
      assert Spent(s.rows, s.rotations[r].jti, s.rotations[r].user);
    }
  }

  lemma {:induction false} IssuedGrows(rows: Rows, issued: set<Claims>, jti: string, user: string)
    requires IssuedAreSaved(rows, issued) && jti !in rows
    ensures IssuedAreSaved(Saved(rows, jti, user), issued + {Claims(user, jti)})
  {
  }

  lemma {:induction false} LoginKeepsChains(s: State, user: string, jti: string)
    requires Chained(s) && jti !in s.rows
    ensures Chained(Execute(s, SaveLogin(user, jti)))
  {
    hide Tail, Partition, LiveAreTails, RotationsAreTails, IssuedAreSaved, Saved;
    var t := Execute(s, SaveLogin(user, jti));
    forall j ensures Tail(t.place, t.chains, j) <==> j == jti || Tail(s.place, s.chains, j) {
      OpeningKeepsTails(s.rows, s.place, s.chains, jti, user, j);
    }
    ChainOpened(s.rows, s.place, s.chains, jti, user);
    SaveKeepsTails(s, t.place, t.chains, t.rotations, jti, user);
    IssuedGrows(s.rows, s.issued, jti, user);
  }

  lemma {:induction false} RotationHasChain(s: State, r: nat)
    requires Chained(s) && r in s.rotations
    ensures Tail(s.place, s.chains, s.rotations[r].jti)
    ensures var used := s.rotations[r];
            used.jti in s.place && s.place[used.jti].chain < |s.chains|
            && s.chains[s.place[used.jti].chain].user == used.user
  {
  }

  lemma {:induction false} RotationKeepsChains(s: State, r: nat, jti: string)
    requires Chained(s) && Enabled(s, SaveRotated(r, jti))
    ensures Chained(Execute(s, SaveRotated(r, jti)))
  {
    hide Tail, Partition, LiveAreTails, RotationsAreTails, IssuedAreSaved, Saved;
    RotationHasChain(s, r);
    var used := s.rotations[r];
    var t := Execute(s, SaveRotated(r, jti));
    forall j ensures Tail(t.place, t.chains, j) <==> j == jti || (Tail(s.place, s.chains, j) && j != used.jti) {
      ExtendingMovesTail(s.rows, s.place, s.chains, jti, used.jti, j);
    }
    ChainExtended(s.rows, s.place, s.chains, jti, s.place[used.jti].chain);
    SaveKeepsTails(s, t.place, t.chains, t.rotations, jti, used.user);
    IssuedGrows(s.rows, s.issued, jti, used.user);
  }

  lemma {:induction false} ActionKeepsChains(s: State, a: Action)
    requires Chained(s) && Enabled(s, a)
    ensures Chained(Execute(s, a))
  {
    hide Chained;
    match a
    case SaveLogin(user, jti) => LoginKeepsChains(s, user, jti);
    case ConsumePresented(r, claims) => ConsumeKeepsChains(s, r, claims);
    case SaveRotated(r, jti) => RotationKeepsChains(s, r, jti);
    case Abandon(r) => RotationEnded(s, r);
    case RevokeUser(user) => SpendingKeepsChains(s, Burned(s.rows, user));
  }

  /** In every interleaving the saved tokens form disjoint chains, one for each login, and every live
      token is the newest of its chain. */
  lemma {:induction false} LiveTokensAreChainTails(run: seq<Action>)
    requires Legal(run)
    ensures Chained(Final(run))
  {
    if run != [] {
      LiveTokensAreChainTails(run[..|run| - 1]);
      ActionKeepsChains(Final(run[..|run| - 1]), run[|run| - 1]);
    }
  }

  // ---- Counting sessions ----

  function LiveOf(rows: Rows, user: string): set<string> {
    set j | j in rows && rows[j].user == user && !rows[j].consumed
  }

  function RotatingOf(s: State, user: string): set<nat> {
    set r | r in s.rotations && s.rotations[r].user == user
  }

  function ChainsOf(s: State, user: string): set<int> {
    set c | 0 <= c < |s.chains| && s.chains[c].user == user
  }

  function Logins(run: seq<Action>, user: string): nat {
    if run == [] then 0
    else
      var last := run[|run| - 1];
      Logins(run[..|run| - 1], user) + if last.SaveLogin? && last.user == user then 1 else 0
  }

  lemma {:induction false} OnlyLoginsOpenChains(s: State, a: Action, user: string)
    ensures |ChainsOf(Execute(s, a), user)|
         == |ChainsOf(s, user)| + if a.SaveLogin? && a.user == user then 1 else 0
  {
    var t := Execute(s, a);
    if a.SaveLogin? && a.user == user {
      assert ChainsOf(t, user) == ChainsOf(s, user) + {|s.chains|};
    } else {
      assert ChainsOf(t, user) == ChainsOf(s, user);
    }
  }

  lemma {:induction false} OneChainPerLogin(run: seq<Action>, user: string)
    ensures |ChainsOf(Final(run), user)| == Logins(run, user)
  {
    if run != [] {
      OneChainPerLogin(run[..|run| - 1], user);
      OnlyLoginsOpenChains(Final(run[..|run| - 1]), run[|run| - 1], user);
    } else {
      assert ChainsOf(START, user) == {};
    }
  }

  lemma {:induction false} TailsHaveOwnChains(s: State, tails: set<string>, user: string)
    requires Chained(s)
    requires forall j | j in tails :: Tail(s.place, s.chains, j) && s.rows[j].user == user
    ensures |tails| <= |ChainsOf(s, user)|
  {
    var chain := (j: string) => if j in s.place then s.place[j].chain as int else -1;
    forall j, k | j in tails && k in tails && chain(j) == chain(k) ensures j == k {
      assert s.place[j] == s.place[k];
    }
    InjectiveImageSize(chain, tails);
    SubsetSize(Image(chain, tails), ChainsOf(s, user));
  }

  /** Live tokens and rotations in flight occupy different chains. */
  lemma {:induction false} TailsFitChains(s: State, user: string)
    requires Chained(s)
    ensures |LiveOf(s.rows, user)| + |RotatingOf(s, user)| <= |ChainsOf(s, user)|
  {
    var consumed := (r: nat) => if r in s.rotations then s.rotations[r].jti else "";
    var live := LiveOf(s.rows, user);
    var rotating := Image(consumed, RotatingOf(s, user));
    InjectiveImageSize(consumed, RotatingOf(s, user));
    assert live !! rotating;
    forall j | j in live + rotating ensures Tail(s.place, s.chains, j) && s.rows[j].user == user {
      if j in live { assert Live(s.rows, j); }
    }
    TailsHaveOwnChains(s, live + rotating, user);
  }

  /** Under every interleaving, and with saves that may fail, a user's live tokens and refreshes in
      flight together never outnumber that user's logins. */
  lemma {:induction false} SessionsNeverExceedLogins(run: seq<Action>, user: string)
    requires Legal(run)
    ensures |LiveOf(Final(run).rows, user)| + |RotatingOf(Final(run), user)| <= Logins(run, user)
  {
    LiveTokensAreChainTails(run);
    OneChainPerLogin(run, user);
    TailsFitChains(Final(run), user);
  }

  // ---- Whole handlers ----

  datatype Request =
    | Login(user: string, jti: string)
    | Refresh(presented: Claims, jti: string)
    | Logout(user: string)

  /** A handler as the store calls it makes, with no other handler in between. */
  function Handle(s: State, q: Request): State {
    match q
    case Login(user, jti) => Execute(s, SaveLogin(user, jti))
    case Refresh(presented, jti) =>
      var t := Execute(s, ConsumePresented(0, presented));
      if 0 in t.rotations then Execute(t, SaveRotated(0, jti)) else t
    case Logout(user) => Execute(s, RevokeUser(user))
  }

  ghost predicate Admissible(s: State, q: Request) {
    match q
    case Login(_, jti) => jti !in s.rows
    case Refresh(presented, jti) => presented in s.issued && jti !in s.rows
    case Logout(_) => true
  }

  function Served(requests: seq<Request>): State {
    if requests == [] then START
    else Handle(Served(requests[..|requests| - 1]), requests[|requests| - 1])
  }

  ghost predicate AllAdmissible(requests: seq<Request>) {
    requests == [] ||
    (AllAdmissible(requests[..|requests| - 1])
     && Admissible(Served(requests[..|requests| - 1]), requests[|requests| - 1]))
  }

  /** The user's logins since the last replayed token or logout of that user. */
  function LoginsSinceBurn(requests: seq<Request>, user: string): nat {
    if requests == [] then 0
    else
      var before := requests[..|requests| - 1];
      var n := LoginsSinceBurn(before, user);
      match requests[|requests| - 1]
      case Login(u, _) => if u == user then n + 1 else n
      case Refresh(presented, _) =>
        if Consumed(Served(before).rows, presented.jti).1 == Replayed(user) then 0 else n
      case Logout(u) => if u == user then 0 else n
  }

  /** A handed-out token is accepted or replayed, for the user in its claims: the mismatch branch of
      refresh is never taken. */
  lemma {:induction false} IssuedTokenNamesItsOwner(s: State, presented: Claims)
    requires Chained(s) && presented in s.issued
    ensures var outcome := Consumed(s.rows, presented.jti).1;
            outcome == Accepted(presented.user) || outcome == Replayed(presented.user)
  {
  }

  /** The two store calls of a refresh, run without interference, are the whole refresh handler. */
  lemma {:induction false} RefreshIsTwoStoreCalls(s: State, presented: Claims, jti: string)
    requires s.rotations == map[]
    ensures Handle(s, Refresh(presented, jti)).rows == Refreshed(s.rows, presented, jti).0
    ensures Handle(s, Refresh(presented, jti)).rotations == map[]
    ensures Handle(s, Refresh(presented, jti)).issued
         == s.issued + if Refreshed(s.rows, presented, jti).1.Some? then {Claims(presented.user, jti)} else {}
  {
  }

  lemma {:induction false} HandlerKeepsChains(s: State, q: Request)
    requires Chained(s) && s.rotations == map[] && Admissible(s, q)
    ensures Chained(Handle(s, q)) && Handle(s, q).rotations == map[]
  {
    hide Chained;
    match q
    case Login(user, jti) => ActionKeepsChains(s, SaveLogin(user, jti));
    case Refresh(presented, jti) =>
      ActionKeepsChains(s, ConsumePresented(0, presented));
      var t := Execute(s, ConsumePresented(0, presented));
      if 0 in t.rotations {
        ActionKeepsChains(t, SaveRotated(0, jti));
      }
    case Logout(user) => ActionKeepsChains(s, RevokeUser(user));
  }

  lemma {:induction false} SavedCounts(rows: Rows, jti: string, u: string, user: string)
    requires jti !in rows
    ensures |LiveOf(Saved(rows, jti, u), user)| == |LiveOf(rows, user)| + if u == user then 1 else 0
  {
    assert LiveOf(Saved(rows, jti, u), user) == LiveOf(rows, user) + if u == user then {jti} else {};
  }

  lemma {:induction false} BurnedCounts(rows: Rows, u: string, user: string)
    ensures |LiveOf(Burned(rows, u), user)| == if u == user then 0 else |LiveOf(rows, user)|
  {
    assert LiveOf(Burned(rows, u), user) == if u == user then {} else LiveOf(rows, user);
  }

  lemma {:induction false} AcceptedCounts(rows: Rows, jti: string, user: string)
    requires Live(rows, jti)
    ensures |LiveOf(Consumed(rows, jti).0, user)|
         == |LiveOf(rows, user)| - if rows[jti].user == user then 1 else 0
  {
    var before := LiveOf(rows, user);
    assert LiveOf(Consumed(rows, jti).0, user) == if rows[jti].user == user then before - {jti} else before;
  }

  lemma {:induction false} HandlerCountsSessions(s: State, q: Request, user: string)
    requires Chained(s) && s.rotations == map[] && Admissible(s, q)
    ensures var live, live' := |LiveOf(s.rows, user)|, |LiveOf(Handle(s, q).rows, user)|;
            match q
            case Login(u, _) => live' == if u == user then live + 1 else live
            case Refresh(presented, _) =>
              live' == if Consumed(s.rows, presented.jti).1 == Replayed(user) then 0 else live
            case Logout(u) => live' == if u == user then 0 else live
  {
    match q
    case Login(u, jti) => SavedCounts(s.rows, jti, u, user);
    case Refresh(presented, jti) =>
      IssuedTokenNamesItsOwner(s, presented);
      var (rows, outcome) := Consumed(s.rows, presented.jti);
      if outcome == Accepted(presented.user) {
        AcceptedCounts(s.rows, presented.jti, user);
        SavedCounts(rows, jti, presented.user, user);
      } else {
        BurnedCounts(s.rows, presented.user, user);
      }
    case Logout(u) => BurnedCounts(s.rows, u, user);
  }

  /** With whole handlers and no failing save, a user's live refresh tokens number exactly the logins
      since that user's last replay or logout. */
  lemma {:induction false} LiveTokensAreLoginsSinceBurn(requests: seq<Request>, user: string)
    requires AllAdmissible(requests)
    ensures Chained(Served(requests)) && Served(requests).rotations == map[]
    ensures |LiveOf(Served(requests).rows, user)| == LoginsSinceBurn(requests, user)
  {
    if requests == [] {
      assert LiveOf(START.rows, user) == {};
    } else {
      var before := requests[..|requests| - 1];
      LiveTokensAreLoginsSinceBurn(before, user);
      HandlerKeepsChains(Served(before), requests[|requests| - 1]);
      HandlerCountsSessions(Served(before), requests[|requests| - 1], user);
    }
  }

  // ---- When a burn is final ----

  ghost predicate NoLogin(run: seq<Action>, user: string) {
    forall a | a in run :: !(a.SaveLogin? && a.user == user)
  }

  /** Whatever the handlers do next, the user has no live token until the next login. */
  ghost predicate StaysOut(s: State, user: string) {
    forall run | LegalFrom(s, run) && NoLogin(run, user) :: LiveOf(FinalFrom(s, run).rows, user) == {}
  }

  ghost predicate Out(s: State, user: string) {
    LiveOf(s.rows, user) == {} && RotatingOf(s, user) == {}
  }

  lemma {:induction false} ActionKeepsOut(s: State, a: Action, user: string)
    requires Chained(s) && Enabled(s, a) && Out(s, user) && !(a.SaveLogin? && a.user == user)
    ensures Out(Execute(s, a), user)
  {
    match a
    case SaveLogin(u, jti) => OtherSave(s.rows, jti, u, user);
    case ConsumePresented(r, claims) => ConsumeKeepsOut(s, r, claims, user);
    case SaveRotated(r, jti) =>
      assert r !in RotatingOf(s, user);
      OtherSave(s.rows, jti, s.rotations[r].user, user);
    case Abandon(r) =>
    case RevokeUser(u) =>
  }

  lemma {:induction false} OtherSave(rows: Rows, jti: string, u: string, user: string)
    requires u != user && LiveOf(rows, user) == {}
    ensures LiveOf(Saved(rows, jti, u), user) == {}
  {
  }

  lemma {:induction false} ConsumeKeepsOut(s: State, r: nat, claims: Claims, user: string)
    requires Chained(s) && claims in s.issued && Out(s, user)
    ensures Out(Execute(s, ConsumePresented(r, claims)), user)
  {
    var (rows, outcome) := Consumed(s.rows, claims.jti);
    ConsumeOnlySpends(s.rows, claims.jti);
    assert LiveOf(rows, user) <= LiveOf(s.rows, user);
    assert outcome == Accepted(claims.user) ==> claims.jti in LiveOf(s.rows, claims.user);
  }

  lemma {:induction false} RunKeepsOut(s: State, run: seq<Action>, user: string)
    requires Chained(s) && Out(s, user) && LegalFrom(s, run) && NoLogin(run, user)
    ensures Chained(FinalFrom(s, run)) && Out(FinalFrom(s, run), user)
  {
    if run != [] {
      hide Chained, Enabled, Execute, Out;
      RunKeepsOut(s, run[..|run| - 1], user);
      ActionKeepsChains(FinalFrom(s, run[..|run| - 1]), run[|run| - 1]);
      ActionKeepsOut(FinalFrom(s, run[..|run| - 1]), run[|run| - 1], user);
    }
  }

  /** A rotation in flight can always save its successor token. */
  lemma {:induction false} RotationRevives(s: State, r: nat, user: string)
    requires r in RotatingOf(s, user)
    ensures !StaysOut(s, user)
  {
    var jti := FreshString(s.rows.Keys);
    var run := [SaveRotated(r, jti)];
    assert run[..0] == [] && LegalFrom(s, []);
    assert LegalFrom(s, run) && FinalFrom(s, run) == Execute(s, run[0]);
    assert jti in LiveOf(FinalFrom(s, run).rows, user);
  }

  /** A user without live tokens stays without them until a login if and only if no refresh of that
      user is between its two store calls. */
  lemma {:induction false} StaysOutExactlyWhenNotRotating(s: State, user: string)
    requires Chained(s) && LiveOf(s.rows, user) == {}
    ensures StaysOut(s, user) <==> RotatingOf(s, user) == {}
  {
    if RotatingOf(s, user) == {} {
      forall run | LegalFrom(s, run) && NoLogin(run, user) ensures LiveOf(FinalFrom(s, run).rows, user) == {} {
        RunKeepsOut(s, run, user);
      }
    } else {
      var r :| r in RotatingOf(s, user);
      RotationRevives(s, r, user);
    }
  }

  /** A logout ends every session of the user for good exactly when no refresh of that user has
      consumed its token and not yet saved the next one. */
  lemma {:induction false} LogoutIsFinalExactlyWhenNotRotating(s: State, user: string)
    requires Chained(s)
    ensures StaysOut(Execute(s, RevokeUser(user)), user) <==> RotatingOf(s, user) == {}
  {
    var t := Execute(s, RevokeUser(user));
    ActionKeepsChains(s, RevokeUser(user));
    assert LiveOf(t.rows, user) == {} && RotatingOf(t, user) == RotatingOf(s, user);
    StaysOutExactlyWhenNotRotating(t, user);
  }

  /** So does the burn that a replayed token causes. */
  lemma {:induction false} ReplayIsFinalExactlyWhenNotRotating(s: State, r: nat, presented: Claims)
    requires Chained(s) && Enabled(s, ConsumePresented(r, presented))
    requires Consumed(s.rows, presented.jti).1.Replayed?
    ensures StaysOut(Execute(s, ConsumePresented(r, presented)), presented.user)
            <==> RotatingOf(s, presented.user) == {}
  {
    var user := presented.user;
    var t := Execute(s, ConsumePresented(r, presented));
    IssuedTokenNamesItsOwner(s, presented);
    ActionKeepsChains(s, ConsumePresented(r, presented));
    assert LiveOf(t.rows, user) == {} && RotatingOf(t, user) == RotatingOf(s, user);
    StaysOutExactlyWhenNotRotating(t, user);
  }

  /** Under interleaving the count can differ: a refresh that has consumed its token before the family
      is burned still saves a live token afterwards. */
  lemma {:induction false} RotationOutlivesBurn(user: string, first: string, second: string)
    requires first != second
    ensures var run := [SaveLogin(user, first), ConsumePresented(0, Claims(user, first)),
                        ConsumePresented(1, Claims(user, first)), SaveRotated(0, second)];
            Legal(run) && Live(Final(run).rows, second)
            && Consumed(Final(run[..2]).rows, first).1 == Replayed(user)
  {
    var run := [SaveLogin(user, first), ConsumePresented(0, Claims(user, first)),
                ConsumePresented(1, Claims(user, first)), SaveRotated(0, second)];
    assert run[..1][..0] == [] && run[..2][..1] == run[..1] && run[..3][..2] == run[..2];
    assert run[..4] == run && run[..4][..3] == run[..3];
    assert Legal(run[..1]) && Final(run[..1]) == Execute(START, run[0]);
    assert Legal(run[..2]) && Final(run[..2]) == Execute(Final(run[..1]), run[1]);
    assert Legal(run[..3]) && Final(run[..3]) == Execute(Final(run[..2]), run[2]);
  }
}

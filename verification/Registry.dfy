/** The registry over runs of registrations, departures and bot counts, where every newcomer has no points
    and points stay what they are: its board is ranked in every reachable state, and exact for as long as
    nobody on it leaves a registry of more than a hundred; no two users share a name up to letter case. */
module Registry {
  import opened Common
  import opened Leaderboard

  const MAX_USERNAME := 32

  type Username = seq<Byte>

  /** `username` is the lower-cased form that must be unique, `displayName` what was typed. */
  datatype Profile = Profile(username: Username, displayName: Username, points: U64, registeredAt: U64, botCount: U32)

  datatype RegistryError =
    | AuthFailed
    | AlreadyRegistered
    | UsernameTaken
    | NotRegistered
    | Unauthorized
    | Overflow
    | InvalidUsername

  /** ASCII letters only; other bytes stay as they are. */
  function LowerByte(b: Byte): Byte {
    if 65 <= b <= 90 then b + 32 else b
  }

  function Lower(s: Username): (r: Username)
    ensures |r| == |s|
  {
    seq(|s|, i requires 0 <= i < |s| => LowerByte(s[i]))
  }

  function Newcomer(name: Username, now: U64): Profile {
    Profile(Lower(name), name, 0, now, 0)
  }

  function Times(profiles: map<Address, Profile>): map<Address, U64> {
    map u | u in profiles :: profiles[u].registeredAt
  }

  function EntryOf(profiles: map<Address, Profile>, user: Address): Entry
    requires user in profiles
  {
    Entry(user, profiles[user].points)
  }

  ghost predicate Shows(profiles: map<Address, Profile>, top: seq<Entry>) {
    forall e :: e in top ==> e.user in profiles && e == EntryOf(profiles, e.user)
  }

  datatype State = State(profiles: map<Address, Profile>, top: seq<Entry>, names: map<Username, Address>, total: U32) {
    /** The board is ranked, shows no user twice, nobody who is not registered, nobody with other points
        than their profile's, and at most a hundred. */
    ghost predicate BoardSound() {
      Ranked(Times(profiles), top) && OneEach(top) && |top| <= LEADERBOARD_SIZE && Shows(profiles, top)
    }

    /** Users and lower-cased names are in one-to-one correspondence, and the counter counts them. */
    ghost predicate NamesSound() {
      && (forall n :: n in names ==> names[n] in profiles && profiles[names[n]].username == n)
      && (forall u :: u in profiles ==> Lower(profiles[u].displayName) == profiles[u].username)
      && (forall u :: u in profiles ==> profiles[u].username in names && names[profiles[u].username] == u)
      && total == |profiles|
    }

    /** What holds in every reachable state. */
    ghost predicate Sound() {
      BoardSound() && NamesSound()
    }

    /** The board shows the best hundred of all registered users. */
    ghost predicate Exact() {
      top == Cut(Ranking(profiles))
    }
  }

  datatype Op =
    | Register(user: Address, name: Username, now: U64)
    | Unregister(user: Address)
    | IncrementBotCount(user: Address, byWriter: bool)
    | DecrementBotCount(user: Address)

  function Joined(s: State, user: Address, name: Username, now: U64): State
    requires s.total < U32_MAX
  {
    var profiles := s.profiles[user := Newcomer(name, now)];
    State(profiles, Cut(Place(Times(profiles), s.top, Entry(user, 0))), s.names[Lower(name) := user], s.total + 1)
  }

  /** After a departure: the name is free again. */
  function Left(s: State, user: Address): State
    requires user in s.profiles
  {
    State(s.profiles - {user}, Without(s.top, user), s.names - {s.profiles[user].username}, SatSub(s.total, 1))
  }

  function WithBots(profiles: map<Address, Profile>, user: Address, count: U32): map<Address, Profile>
    requires user in profiles
  {
    profiles[user := profiles[user].(botCount := count)]
  }

  function CountAfter(count: U32, op: Op): U32 {
    if op.IncrementBotCount? then Min(count + 1, U32_MAX) else SatSub(count, 1)
  }

  function Counted(s: State, op: Op): State
    requires op.user in s.profiles
  {
    s.(profiles := WithBots(s.profiles, op.user, CountAfter(s.profiles[op.user].botCount, op)))
  }

  function Apply(s: State, signed: set<Address>, op: Op): Result<State, RegistryError> {
    match op
    case Register(user, name, now) =>
      if user !in signed then Err(AuthFailed)
      else if user in s.profiles then Err(AlreadyRegistered)
      else if !(1 <= |name| <= MAX_USERNAME) then Err(InvalidUsername)
      else if Lower(name) in s.names then Err(UsernameTaken)
      else if s.total == U32_MAX then Err(Overflow)
      else Ok(Joined(s, user, name, now))
    case Unregister(user) =>
      if user !in signed then Err(AuthFailed)
      else if user !in s.profiles then Err(NotRegistered)
      else if s.profiles[user].botCount > 0 then Err(Unauthorized)
      else Ok(Left(s, user))
    case IncrementBotCount(user, byWriter) =>
      if !byWriter then Err(AuthFailed)
      else if user !in s.profiles then Err(NotRegistered)
      else Ok(Counted(s, op))
    case DecrementBotCount(user) =>
      if user !in signed then Err(AuthFailed)
      else if user !in s.profiles then Err(NotRegistered)
      else Ok(Counted(s, op))
  }

  const EMPTY := State(map[], [], map[], 0)

  function Step(s: State, signed: set<Address>, op: Op): State {
    var r := Apply(s, signed, op);
    if r.Ok? then r.value else s
  }

  function Run(s: State, steps: seq<(set<Address>, Op)>): State
    decreases |steps|
  {
    if steps == [] then s else Run(Step(s, steps[0].0, steps[0].1), steps[1..])
  }

  // ---- the ranking of all users ---------------------------------------------------------------

  /** `all` lists every registered user with their points. */
  ghost predicate Lists(profiles: map<Address, Profile>, all: seq<Entry>) {
    forall e :: e in all <==> e.user in profiles && e == EntryOf(profiles, e.user)
  }

  /** `all` lists every registered user with their points, best first. */
  ghost predicate Ranks(profiles: map<Address, Profile>, all: seq<Entry>) {
    Ranked(Times(profiles), all) && OneEach(all) && Lists(profiles, all)
  }

  lemma RanksUnique(profiles: map<Address, Profile>, a: seq<Entry>, b: seq<Entry>)
    requires Ranks(profiles, a) && Ranks(profiles, b)
    ensures a == b
  {
    RankedSame(Times(profiles), a, b);
  }

  lemma ListsAdd(before: map<Address, Profile>, profiles: map<Address, Profile>, user: Address, all: seq<Entry>,
                 more: seq<Entry>)
    requires user !in before && user in profiles && before == profiles - {user} && Lists(before, all)
    requires forall x :: x in more <==> x in all || x == EntryOf(profiles, user)
    ensures Lists(profiles, more)
  {
    forall e
      ensures e in more <==> e.user in profiles && e == EntryOf(profiles, e.user)
    {
      assert e in all <==> e.user in before && e == EntryOf(before, e.user);
    }
  }

  lemma NotListed(profiles: map<Address, Profile>, user: Address, all: seq<Entry>)
    requires user !in profiles && forall e :: e in all ==> e.user in profiles
    ensures forall k :: 0 <= k < |all| ==> all[k].user != user
  {
    forall k | 0 <= k < |all|
      ensures all[k].user != user
    {
      assert all[k] in all;
    }
  }

  /** One more user takes their place. */
  lemma RanksAdd(before: map<Address, Profile>, profiles: map<Address, Profile>, user: Address, all: seq<Entry>)
    requires user !in before && user in profiles && before == profiles - {user} && Ranks(before, all)
    ensures Ranks(profiles, Place(Times(profiles), all, EntryOf(profiles, user)))
  {
    var times, e := Times(profiles), EntryOf(profiles, user);
    NotListed(before, user, all);
    RankedAgree(Times(before), times, all);
    PlaceKeeps(times, all, e);
    PlaceLists(times, all, e);
    ListsAdd(before, profiles, user, all, Place(times, all, e));
  }

  /** One user less leaves the others as they are. */
  lemma {:induction false} RanksDrop(profiles: map<Address, Profile>, user: Address, all: seq<Entry>)
    requires Ranks(profiles, all)
    ensures Ranks(profiles - {user}, Without(all, user))
  {
    WithoutKeepsRank(Times(profiles), all, user);
    RankedAgree(Times(profiles), Times(profiles - {user}), Without(all, user));
  }

  ghost function Ranking(profiles: map<Address, Profile>): (all: seq<Entry>)
    ensures Ranks(profiles, all)
    decreases |profiles|
  {
    if profiles == map[] then []
    else
      var user :| user in profiles;
      assert |profiles - {user}| < |profiles| by { Smaller(profiles, user); }
      RanksAdd(profiles - {user}, profiles, user, Ranking(profiles - {user}));
      Place(Times(profiles), Ranking(profiles - {user}), EntryOf(profiles, user))
  }

  lemma Smaller(profiles: map<Address, Profile>, user: Address)
    requires user in profiles
    ensures |profiles - {user}| == |profiles| - 1
  {
    assert (profiles - {user}).Keys == profiles.Keys - {user};
    assert |profiles.Keys| == |profiles| && |(profiles - {user}).Keys| == |profiles - {user}|;
  }

  lemma {:induction false} RanksSize(profiles: map<Address, Profile>, all: seq<Entry>)
    requires Ranks(profiles, all)
    ensures |all| == |profiles|
    decreases |profiles|
  {
    if profiles == map[] {
      SomeMember(all);
    } else {
      var user :| user in profiles;
      Smaller(profiles, user);
      RanksDrop(profiles, user, all);
      RanksSize(profiles - {user}, Without(all, user));
      WithoutSize(all, user);
      assert EntryOf(profiles, user) in all;
    }
  }

  // ---- one step -------------------------------------------------------------------------------

  lemma ShowsAdd(before: map<Address, Profile>, profiles: map<Address, Profile>, user: Address, top: seq<Entry>,
                 more: seq<Entry>)
    requires user !in before && user in profiles && before == profiles - {user} && Shows(before, top)
    requires forall x :: x in more ==> x in top || x == EntryOf(profiles, user)
    ensures Shows(profiles, more)
  {
    forall e | e in more
      ensures e.user in profiles && e == EntryOf(profiles, e.user)
    {
      assert e in top ==> e.user in before && e == EntryOf(before, e.user);
    }
  }

  lemma RegisterRanked(s: State, t: State, user: Address)
    requires s.BoardSound() && user !in s.profiles && user in t.profiles && s.profiles == t.profiles - {user}
    requires t.top == Cut(Place(Times(t.profiles), s.top, EntryOf(t.profiles, user)))
    ensures t.BoardSound()
  {
    var times, e := Times(t.profiles), EntryOf(t.profiles, user);
    NotListed(s.profiles, user, s.top);
    RankedAgree(Times(s.profiles), times, s.top);
    PlaceKeeps(times, s.top, e);
    PlaceLists(times, s.top, e);
    CutKeeps(times, Place(times, s.top, e));
    ShowsAdd(s.profiles, t.profiles, user, s.top, t.top);
  }

  lemma RegisterNames(s: State, t: State, user: Address, name: Username, now: U64)
    requires s.NamesSound() && user !in s.profiles && Lower(name) !in s.names && s.total < U32_MAX
    requires t.profiles == s.profiles[user := Newcomer(name, now)] && t.names == s.names[Lower(name) := user]
    requires t.total == s.total + 1
    ensures t.NamesSound()
  {
    assert t.profiles - {user} == s.profiles;
    Smaller(t.profiles, user);
  }

  lemma RegisterSound(s: State, user: Address, name: Username, now: U64)
    requires s.Sound() && user !in s.profiles && Lower(name) !in s.names && s.total < U32_MAX
    ensures Joined(s, user, name, now).Sound()
  {
    var t := Joined(s, user, name, now);
    assert t.profiles - {user} == s.profiles;
    RegisterRanked(s, t, user);
    RegisterNames(s, t, user, name, now);
  }

  lemma LeftSound(s: State, user: Address)
    requires s.Sound() && user in s.profiles
    ensures Left(s, user).Sound()
  {
    WithoutKeepsRank(Times(s.profiles), s.top, user);
    RankedAgree(Times(s.profiles), Times(s.profiles - {user}), Without(s.top, user));
    Smaller(s.profiles, user);
  }

  lemma SameTimes(profiles: map<Address, Profile>, user: Address, count: U32)
    requires user in profiles
    ensures Times(WithBots(profiles, user, count)) == Times(profiles)
    ensures WithBots(profiles, user, count).Keys == profiles.Keys
    ensures forall u :: u in profiles ==> EntryOf(WithBots(profiles, user, count), u) == EntryOf(profiles, u)
  {
  }

  /** A count of bots changes nothing about the ranking. */
  lemma CountExact(s: State, op: Op)
    requires op.user in s.profiles
    ensures s.Exact() <==> Counted(s, op).Exact()
  {
    var after := Counted(s, op).profiles;
    SameTimes(s.profiles, op.user, CountAfter(s.profiles[op.user].botCount, op));
    assert Ranks(after, Ranking(s.profiles));
    RanksUnique(after, Ranking(s.profiles), Ranking(after));
  }

  lemma CountNames(s: State, op: Op)
    requires s.NamesSound() && op.user in s.profiles
    ensures Counted(s, op).NamesSound()
  {
    var after := Counted(s, op).profiles;
    assert after.Keys == s.profiles.Keys;
    assert |after| == |after.Keys| && |s.profiles| == |s.profiles.Keys|;
  }

  lemma CountSound(s: State, op: Op)
    requires s.Sound() && op.user in s.profiles
    ensures Counted(s, op).Sound()
  {
    SameTimes(s.profiles, op.user, CountAfter(s.profiles[op.user].botCount, op));
    CountNames(s, op);
  }

  lemma StepSound(s: State, signed: set<Address>, op: Op)
    requires s.Sound()
    ensures Step(s, signed, op).Sound()
  {
    if Apply(s, signed, op).Ok? {
      if op.Register? {
        RegisterSound(s, op.user, op.name, op.now);
      } else if op.Unregister? {
        LeftSound(s, op.user);
      } else {
        CountSound(s, op);
      }
    }
  }

  lemma RegisterExact(s: State, user: Address, name: Username, now: U64)
    requires s.Exact() && user !in s.profiles && s.total < U32_MAX
    ensures Joined(s, user, name, now).Exact()
  {
    var profiles := s.profiles[user := Newcomer(name, now)];
    assert profiles - {user} == s.profiles;
    RanksAdd(s.profiles, profiles, user, Ranking(s.profiles));
    RanksUnique(profiles, Ranking(profiles), Place(Times(profiles), Ranking(s.profiles), Entry(user, 0)));
    CutPlace(Times(profiles), Ranking(s.profiles), Entry(user, 0));
  }

  /** A departure leaves an exact board exact if and only if the user was not on it or at most a hundred
      are registered. */
  lemma UnregisterExactIff(s: State, user: Address)
    requires s.Exact() && user in s.profiles
    ensures Left(s, user).Exact()
            <==> |s.profiles| <= LEADERBOARD_SIZE || !Holds(s.top, user)
  {
    var all := Ranking(s.profiles);
    RanksDrop(s.profiles, user, all);
    RanksUnique(s.profiles - {user}, Ranking(s.profiles - {user}), Without(all, user));
    RanksSize(s.profiles, all);
    RemovalExactIff(all, user);
  }

  /** A successful step that takes somebody off the board while others wait below it. */
  predicate Loses(s: State, signed: set<Address>, op: Op) {
    op.Unregister? && Apply(s, signed, op).Ok? && |s.profiles| > LEADERBOARD_SIZE && Holds(s.top, op.user)
  }

  lemma StepExactIff(s: State, signed: set<Address>, op: Op)
    requires s.Exact()
    ensures Step(s, signed, op).Exact() <==> !Loses(s, signed, op)
  {
    if Apply(s, signed, op).Ok? {
      match op
      case Register(user, name, now) => RegisterExact(s, user, name, now);
      case Unregister(user) => UnregisterExactIff(s, user);
      case _ => CountExact(s, op);
    }
  }

  /** Whether a registration succeeds, in terms of the users there are: the name must be free up to the
      case of its letters. */
  lemma RegisterSucceedsIff(s: State, signed: set<Address>, user: Address, name: Username, now: U64)
    requires s.Sound()
    ensures Apply(s, signed, Register(user, name, now)).Ok?
            <==> && user in signed && user !in s.profiles && 1 <= |name| <= MAX_USERNAME
                 && (forall u :: u in s.profiles ==> Lower(s.profiles[u].displayName) != Lower(name))
                 && |s.profiles| < U32_MAX
  {
    if Lower(name) in s.names {
      assert s.names[Lower(name)] in s.profiles;
    }
  }

  /** A step from a reachable state: it stays sound, and an exact board stays exact unless the step loses
      somebody. */
  lemma StepKeeps(s: State, signed: set<Address>, op: Op)
    requires s.Sound()
    ensures Step(s, signed, op).Sound()
    ensures s.Exact() ==> (Step(s, signed, op).Exact() <==> !Loses(s, signed, op))
  {
    StepSound(s, signed, op);
    if s.Exact() {
      StepExactIff(s, signed, op);
    }
  }

  /** A departure succeeds exactly for a signed user without bots, and makes way for another of that name. */
  lemma UnregisterDoes(s: State, signed: set<Address>, user: Address)
    requires s.Sound()
    ensures var r := Apply(s, signed, Unregister(user));
            && (r.Ok? <==> user in signed && user in s.profiles && s.profiles[user].botCount == 0)
            && (r.Ok? ==>
                  && r.value.profiles == s.profiles - {user} && r.value.total == s.total - 1
                  && r.value.names == s.names - {Lower(s.profiles[user].displayName)}
                  && forall e :: e in r.value.top <==> e in s.top && e.user != user)
  {
    if user in s.profiles {
      WithoutKeepsRank(Times(s.profiles), s.top, user);
      Smaller(s.profiles, user);
    }
  }

  /** A newcomer has no points and no bots, the name as typed, and the time of the call. */
  lemma RegisterDoes(s: State, signed: set<Address>, user: Address, name: Username, now: U64)
    ensures var r := Apply(s, signed, Register(user, name, now));
            r.Ok? ==>
              && user in r.value.profiles && r.value.profiles - {user} == s.profiles - {user}
              && (var p := r.value.profiles[user];
                  p.points == 0 && p.botCount == 0 && p.registeredAt == now && p.displayName == name
                  && p.username == Lower(name))
              && r.value.names == s.names[Lower(name) := user] && r.value.total == s.total + 1
  {
  }

  /** Bot counts move by one, stay between 0 and the top of `u32`, and touch nothing else. */
  lemma BotCountsDo(s: State, signed: set<Address>, user: Address, byWriter: bool)
    ensures var r := Apply(s, signed, IncrementBotCount(user, byWriter));
            && (r.Ok? <==> byWriter && user in s.profiles)
            && (r.Ok? ==> && (s.profiles[user].botCount < U32_MAX ==>
                                r.value.profiles[user].botCount == s.profiles[user].botCount + 1)
                          && (s.profiles[user].botCount == U32_MAX ==> r.value == s)
                          && r.value.profiles[user].(botCount := 0) == s.profiles[user].(botCount := 0)
                          && r.value == s.(profiles := s.profiles[user := r.value.profiles[user]]))
    ensures var r := Apply(s, signed, DecrementBotCount(user));
            && (r.Ok? <==> user in signed && user in s.profiles)
            && (r.Ok? ==> && (s.profiles[user].botCount > 0 ==>
                                r.value.profiles[user].botCount == s.profiles[user].botCount - 1)
                          && (s.profiles[user].botCount == 0 ==> r.value == s)
                          && r.value.profiles[user].(botCount := 0) == s.profiles[user].(botCount := 0)
                          && r.value == s.(profiles := s.profiles[user := r.value.profiles[user]]))
  {
    if user in s.profiles {
      assert s.profiles[user := s.profiles[user]] == s.profiles;
    }
  }

  /** Two names are the same if and only if they differ at most in the case of ASCII letters. */
  lemma SameNameIff(a: Username, b: Username)
    ensures Lower(a) == Lower(b)
            <==> |a| == |b| && forall i :: 0 <= i < |a| ==>
                   a[i] == b[i] || CaseApart(a[i], b[i]) || CaseApart(b[i], a[i])
  {
    if |a| == |b| {
      forall i | 0 <= i < |a|
        ensures Lower(a)[i] == Lower(b)[i] <==> a[i] == b[i] || CaseApart(a[i], b[i]) || CaseApart(b[i], a[i])
      {
      }
      if Lower(a) == Lower(b) {
        assert forall i :: 0 <= i < |a| ==> Lower(a)[i] == Lower(b)[i];
      }
    }
  }

  /** A capital letter and its small one. */
  predicate CaseApart(capital: Byte, small: Byte) {
    'A' as int <= capital <= 'Z' as int && small == capital + 32
  }

  /** More points win, then the earlier registration, then the address that comes first. */
  ghost predicate Beats(profiles: map<Address, Profile>, a: Address, b: Address)
    requires a in profiles && b in profiles
  {
    || profiles[a].points > profiles[b].points
    || (&& profiles[a].points == profiles[b].points
        && (|| profiles[a].registeredAt < profiles[b].registeredAt
            || (profiles[a].registeredAt == profiles[b].registeredAt && ComesFirst(a.xdr, b.xdr))))
  }

  lemma AboveIff(profiles: map<Address, Profile>, a: Address, b: Address)
    requires a in profiles && b in profiles
    ensures Above(Times(profiles), EntryOf(profiles, a), EntryOf(profiles, b)) <==> Beats(profiles, a, b)
  {
    LessIff(a.xdr, b.xdr);
  }

  /** Whoever stands before somebody on the board beats them. */
  lemma BoardIsSorted(s: State, i: nat, j: nat)
    requires s.Sound() && i < j < |s.top|
    ensures s.top[i].user in s.profiles && s.top[j].user in s.profiles
    ensures Beats(s.profiles, s.top[i].user, s.top[j].user)
  {
    assert s.top[i] in s.top && s.top[j] in s.top;
    AboveIff(s.profiles, s.top[i].user, s.top[j].user);
  }

  lemma PlaceOnCut(all: seq<Entry>, at: nat)
    requires OneEach(all) && at < |all|
    ensures forall i :: 0 <= i < |Cut(all)| && Cut(all)[i].user == all[at].user ==> i == at
    ensures !Holds(Cut(all), all[at].user) ==> at >= LEADERBOARD_SIZE
  {
    if at < |Cut(all)| {
      assert Cut(all)[at] in Cut(all);
    }
  }

  /** On an exact board everybody beats everybody who is not on it. */
  lemma BoardIsBest(s: State, i: nat, user: Address)
    requires s.Exact() && i < |s.top| && user in s.profiles && !Holds(s.top, user)
    ensures s.top[i].user in s.profiles && Beats(s.profiles, s.top[i].user, user)
  {
    var all := Ranking(s.profiles);
    assert EntryOf(s.profiles, user) in all;
    var at :| 0 <= at < |all| && all[at] == EntryOf(s.profiles, user);
    PlaceOnCut(all, at);
    assert all[i] in all;
    AboveIff(s.profiles, all[i].user, user);
  }

  // ---- runs -----------------------------------------------------------------------------------

  /** Over every run the board is ranked, bounded and about registered users. */
  lemma {:induction false} RunSound(s: State, steps: seq<(set<Address>, Op)>)
    requires s.Sound()
    ensures Run(s, steps).Sound()
    decreases |steps|
  {
    if steps != [] {
      StepSound(s, steps[0].0, steps[0].1);
      RunSound(Step(s, steps[0].0, steps[0].1), steps[1..]);
    }
  }

  ghost predicate AlwaysExact(s: State, steps: seq<(set<Address>, Op)>)
    decreases |steps|
  {
    s.Exact() && (steps != [] ==> AlwaysExact(Step(s, steps[0].0, steps[0].1), steps[1..]))
  }

  predicate NeverLoses(s: State, steps: seq<(set<Address>, Op)>)
    decreases |steps|
  {
    steps != [] ==>
      !Loses(s, steps[0].0, steps[0].1) && NeverLoses(Step(s, steps[0].0, steps[0].1), steps[1..])
  }

  /** Over every run: the board is exact throughout if and only if nobody on it leaves a registry of more
      than a hundred. */
  lemma {:induction false} AlwaysExactIff(s: State, steps: seq<(set<Address>, Op)>)
    requires s.Exact()
    ensures AlwaysExact(s, steps) <==> NeverLoses(s, steps)
    ensures NeverLoses(s, steps) ==> Run(s, steps).Exact()
    decreases |steps|
  {
    if steps != [] {
      StepExactIff(s, steps[0].0, steps[0].1);
      if !Loses(s, steps[0].0, steps[0].1) {
        AlwaysExactIff(Step(s, steps[0].0, steps[0].1), steps[1..]);
      } else {
        assert !AlwaysExact(Step(s, steps[0].0, steps[0].1), steps[1..]);
      }
    }
  }

  // ---- a board that loses its first ------------------------------------------------------------

  function User(i: Byte): Address {
    Address([i])
  }

  /** Users who register one after the other. */
  function Crowd(n: nat): seq<(set<Address>, Op)>
    requires n <= 128
  {
    if n == 0 then [] else Crowd(n - 1) + [({User(n - 1)}, Register(User(n - 1), [127 + n], n - 1))]
  }

  lemma {:induction false} RunAppend(s: State, steps: seq<(set<Address>, Op)>, last: (set<Address>, Op))
    ensures Run(s, steps + [last]) == Step(Run(s, steps), last.0, last.1)
    decreases |steps|
  {
    if steps == [] {
      assert ([] + [last])[1..] == [];
    } else {
      assert (steps + [last])[1..] == steps[1..] + [last];
      RunAppend(Step(s, steps[0].0, steps[0].1), steps[1..], last);
    }
  }

  /** Only the first `n` of them are registered. */
  ghost predicate AmongFirst(s: State, n: nat) {
    && (forall u :: u in s.profiles ==> |u.xdr| == 1 && u.xdr[0] < n)
    && (forall name :: name in s.names ==> |name| == 1 && name[0] < 128 + n)
  }

  /** The first one leads the board. */
  ghost predicate FirstLeads(s: State) {
    && User(0) in s.profiles && s.profiles[User(0)] == Newcomer([128], 0)
    && s.top != [] && s.top[0] == Entry(User(0), 0)
  }

  /** The state after `n` of them. */
  ghost predicate Gathered(s: State, n: nat) {
    s.Sound() && s.Exact() && s.total == n && AmongFirst(s, n) && (n > 0 ==> FirstLeads(s))
  }

  /** Whoever registers later with no more points stays behind the leader. */
  lemma LeaderStays(reg: map<Address, U64>, top: seq<Entry>, e: Entry)
    requires top != [] && !Above(reg, e, top[0])
    ensures Cut(Place(reg, top, e)) != [] && Cut(Place(reg, top, e))[0] == top[0]
  {
    assert Position(reg, top, e) > 0;
  }

  lemma NextIsNew(s: State, n: nat)
    requires AmongFirst(s, n) && n < 128 && s.total == n
    ensures User(n) !in s.profiles && Lower([128 + n]) == [128 + n] && [128 + n] !in s.names
    ensures AmongFirst(Joined(s, User(n), [128 + n], n), n + 1)
  {
    var user, name := User(n), [128 + n];
    assert user.xdr[0] == n && name[0] == 128 + n;
    assert Lower(name)[0] == name[0];
  }

  lemma FirstStays(s: State, n: nat)
    requires FirstLeads(s) && 0 < n < 128 && s.total == n && User(n) !in s.profiles
    ensures FirstLeads(Joined(s, User(n), [128 + n], n))
  {
    assert User(0).xdr[0] == 0 && User(n).xdr[0] == n;
    LeaderStays(Times(s.profiles[User(n) := Newcomer([128 + n], n)]), s.top, Entry(User(n), 0));
  }

  lemma FirstEnters(s: State)
    requires s.Sound() && s.total == 0
    ensures FirstLeads(Joined(s, User(0), [128], 0))
  {
    SomeMember(s.top);
    assert s.top == [];
  }

  lemma OneMore(s: State, n: nat)
    requires Gathered(s, n) && n < 128
    ensures Apply(s, {User(n)}, Register(User(n), [128 + n], n)) == Ok(Joined(s, User(n), [128 + n], n))
    ensures Gathered(Joined(s, User(n), [128 + n], n), n + 1)
  {
    NextIsNew(s, n);
    RegisterSound(s, User(n), [128 + n], n);
    RegisterExact(s, User(n), [128 + n], n);
    if n == 0 {
      FirstEnters(s);
    } else {
      FirstStays(s, n);
    }
  }

  lemma {:induction false} CrowdGathers(n: nat)
    requires n <= 128
    ensures Gathered(Run(EMPTY, Crowd(n)), n)
    decreases n
  {
    if n == 0 {
      RanksUnique(map[], Ranking(map[]), []);
    } else {
      CrowdGathers(n - 1);
      OneMore(Run(EMPTY, Crowd(n - 1)), n - 1);
      RunAppend(EMPTY, Crowd(n - 1), ({User(n - 1)}, Register(User(n - 1), [127 + n], n - 1)));
    }
  }

  lemma LeavesAGap(s: State)
    requires Gathered(s, 101)
    ensures Apply(s, {User(0)}, Unregister(User(0))).Ok?
    ensures !Step(s, {User(0)}, Unregister(User(0))).Exact()
  {
    assert s.top[0] in s.top;
    StepExactIff(s, {User(0)}, Unregister(User(0)));
  }

  /** A hundred and one users register, and the first one leaves: the board was exact and no longer is. */
  lemma {:induction false} LeaderLeavesAGap(n: nat, s: State)
    requires n == 101 && s == Run(EMPTY, Crowd(n))
    ensures s.Exact() && |s.profiles| == 101
    ensures Apply(s, {User(0)}, Unregister(User(0))).Ok?
    ensures !Step(s, {User(0)}, Unregister(User(0))).Exact()
  {
    CrowdGathers(n);
    LeavesAGap(s);
  }

  /** The users ranked above one. */
  ghost function Better(profiles: map<Address, Profile>, user: Address): set<Address>
    requires user in profiles
  {
    set u | u in profiles && Above(Times(profiles), EntryOf(profiles, u), EntryOf(profiles, user))
  }

  lemma BetterCounts(profiles: map<Address, Profile>, all: seq<Entry>, i: nat)
    requires Ranks(profiles, all) && i < |all|
    ensures all[i].user in profiles && |Better(profiles, all[i].user)| == i
  {
    assert all[i] in all;
    RankCounts(Times(profiles), all, i);
    var above := set e | e in all && Above(Times(profiles), e, all[i]);
    var users := map u | u in Better(profiles, all[i].user) :: EntryOf(profiles, u);
    InjectionSize(Better(profiles, all[i].user), users, above);
    var back := map e | e in above :: e.user;
    InjectionSize(above, back, Better(profiles, all[i].user));
  }

  /** On an exact board a place is one more than the number of users ranked above, and who is not on it
      has a hundred or more above. */
  lemma PlaceIsCount(s: State, user: Address)
    requires s.Exact() && user in s.profiles
    ensures forall i :: 0 <= i < |s.top| && s.top[i].user == user ==> i == |Better(s.profiles, user)|
    ensures !Holds(s.top, user) ==> |Better(s.profiles, user)| >= LEADERBOARD_SIZE
  {
    var all := Ranking(s.profiles);
    assert EntryOf(s.profiles, user) in all;
    var at :| 0 <= at < |all| && all[at] == EntryOf(s.profiles, user);
    BetterCounts(s.profiles, all, at);
    PlaceOnCut(all, at);
  }

  // ---- the contract at work ---------------------------------------------------------------------

  /** Answer like `spec`, commit on `Ok`, leave no trace on `Err`. */
  ghost predicate Commits(before: State, spec: Result<State, RegistryError>, r: Result<(), RegistryError>,
                          after: State)
  {
    match spec
    case Ok(s) => r.Ok? && after == s
    case Err(e) => r == Err(e) && after == before
  }

  /** `ascii_lower`, on names within the length limit. */
  method AsciiLower(s: Username) returns (r: Username)
    requires |s| <= MAX_USERNAME
    ensures r == Lower(s)
  {
    r := [];
    var i := 0;
    while i < |s|
      invariant 0 <= i == |r| <= |s|
      invariant forall k :: 0 <= k < i ==> r[k] == LowerByte(s[k])
    {
      r := r + [if 65 <= s[i] <= 90 then s[i] + 32 else s[i]];
      i := i + 1;
    }
  }

  class Board {
    var profiles: map<Address, Profile>
    var top: seq<Entry>
    var names: map<Username, Address>
    var total: U32

    function Now(): State
      reads this
    {
      State(profiles, top, names, total)
    }

    constructor ()
      ensures Now() == EMPTY && Now().Sound() && Now().Exact()
    {
      profiles, top, names, total := map[], [], map[], 0;
      new;
      RanksUnique(map[], Ranking(map[]), []);
    }

    method RanksAboveEntry(e: Entry, other: Entry) returns (above: bool)
      ensures above == Above(Times(profiles), e, other)
    {
      var a, b := Key(Times(profiles), e), Key(Times(profiles), other);
      if a.points != b.points {
        return a.points > b.points;
      }
      if a.registeredAt != b.registeredAt {
        return a.registeredAt < b.registeredAt;
      }
      var o := CmpBytes(a.addr, b.addr);
      return o == Less;
    }

    /** Into its place, and the last one out when there are too many; `false` when it would be the last
        one of a full board. */
    method PlaceInTop(e: Entry) returns (placed: bool)
      requires Ranked(Times(profiles), top) && |top| <= LEADERBOARD_SIZE
      modifies `top
      ensures top == Cut(Place(Times(profiles), old(top), e))
      ensures placed <==> Position(Times(profiles), old(top), e) < LEADERBOARD_SIZE
      ensures !placed ==> top == old(top)
    {
      if |top| >= LEADERBOARD_SIZE {
        var above := RanksAboveEntry(e, top[|top| - 1]);
        if !above {
          NotAboveLast(Times(profiles), top, e);
          return false;
        }
      }
      var pos := |top|;
      var k := 0;
      while k < |top|
        invariant 0 <= k <= |top| && pos == |top| && top == old(top)
        invariant forall i :: 0 <= i < k ==> !Above(Times(profiles), e, top[i])
      {
        var above := RanksAboveEntry(e, top[k]);
        if above {
          pos := k;
          break;
        }
        k := k + 1;
      }
      PositionUnique(Times(profiles), top, e, pos);
      top := top[..pos] + [e] + top[pos..];
      if |top| > LEADERBOARD_SIZE {
        top := top[..|top| - 1];
      }
      assert top == Cut(Place(Times(profiles), old(top), e));
      return true;
    }

    method RemoveFromTop(user: Address)
      modifies `top
      ensures top == Without(old(top), user)
    {
      var next: seq<Entry> := [];
      var i := 0;
      while i < |top|
        invariant 0 <= i <= |top| && top == old(top)
        invariant next == Without(top[..i], user)
      {
        assert top[..i + 1][..i] == top[..i];
        if top[i].user != user {
          next := next + [top[i]];
        }
        i := i + 1;
      }
      assert top[..i] == top;
      top := next;
    }

    /** Profile, name, board and counter, or nothing at all. */
    method Enlist(user: Address, name: Username, normalized: Username, now: U64) returns (r: Result<(), RegistryError>)
      requires Now().Sound() && user !in profiles && normalized == Lower(name)
      modifies this
      ensures old(total) < U32_MAX ==> r.Ok? && Now() == Joined(old(Now()), user, name, now)
      ensures old(total) == U32_MAX ==> r == Err(Overflow) && Now() == old(Now())
    {
      var before := Now();
      StillRanked(before, user, Newcomer(name, now));
      profiles := profiles[user := Profile(normalized, name, 0, now, 0)];
      names := names[normalized := user];
      var _ := PlaceInTop(Entry(user, 0));
      if total == U32_MAX {
        profiles, top, names := before.profiles, before.top, before.names;
        return Err(Overflow);
      }
      total := total + 1;
      return Ok(());
    }

    /** A new user starts with no points, behind everybody who registered before with none. */
    method Register(signed: set<Address>, user: Address, name: Username, now: U64)
      returns (r: Result<(), RegistryError>)
      requires Now().Sound()
      modifies this
      ensures Now().Sound()
      ensures Commits(old(Now()), old(Apply(Now(), signed, Op.Register(user, name, now))), r, Now())
      ensures old(Now().Exact()) ==> Now().Exact()
    {
      StepKeeps(Now(), signed, Op.Register(user, name, now));
      if user !in signed { return Err(AuthFailed); }
      if user in profiles { return Err(AlreadyRegistered); }
      if |name| == 0 || |name| > MAX_USERNAME { return Err(InvalidUsername); }
      var normalized := AsciiLower(name);
      if normalized in names { return Err(UsernameTaken); }
      r := Enlist(user, name, normalized, now);
    }

    method Delist(user: Address)
      requires user in profiles
      modifies this
      ensures Now() == Left(old(Now()), user)
    {
      names := names - {profiles[user].username};
      profiles := profiles - {user};
      RemoveFromTop(user);
      if total > 0 {
        total := total - 1;
      }
    }

    /** Refused while the profile counts bots; whoever leaves makes room that nobody fills. */
    method Unregister(signed: set<Address>, user: Address) returns (r: Result<(), RegistryError>)
      requires Now().Sound()
      modifies this
      ensures Now().Sound()
      ensures Commits(old(Now()), old(Apply(Now(), signed, Op.Unregister(user))), r, Now())
      ensures old(Now().Exact()) ==> (Now().Exact() <==> !old(Loses(Now(), signed, Op.Unregister(user))))
    {
      StepKeeps(Now(), signed, Op.Unregister(user));
      if user !in signed { return Err(AuthFailed); }
      if user !in profiles { return Err(NotRegistered); }
      if profiles[user].botCount > 0 { return Err(Unauthorized); }
      Delist(user);
      return Ok(());
    }

    /** Open to the configured bot_nft contract only. */
    method IncrementBotCount(byWriter: bool, user: Address) returns (r: Result<(), RegistryError>)
      modifies `profiles
      ensures Commits(old(Now()), old(Apply(Now(), {}, Op.IncrementBotCount(user, byWriter))), r, Now())
    {
      if !byWriter { return Err(AuthFailed); }
      if user !in profiles { return Err(NotRegistered); }
      profiles := profiles[user := profiles[user].(botCount := Min(profiles[user].botCount + 1, U32_MAX))];
      return Ok(());
    }

    method DecrementBotCount(signed: set<Address>, user: Address) returns (r: Result<(), RegistryError>)
      modifies `profiles
      ensures Commits(old(Now()), old(Apply(Now(), signed, Op.DecrementBotCount(user))), r, Now())
    {
      if user !in signed { return Err(AuthFailed); }
      if user !in profiles { return Err(NotRegistered); }
      profiles := profiles[user := profiles[user].(botCount := SatSub(profiles[user].botCount, 1))];
      return Ok(());
    }

    /** The first place at which the board shows a user. */
    method FindPlace(user: Address) returns (i: nat)
      ensures i <= |top| && (i < |top| ==> top[i].user == user)
      ensures i == |top| <==> !Holds(top, user)
    {
      i := 0;
      while i < |top|
        invariant 0 <= i <= |top|
        invariant forall k :: 0 <= k < i ==> top[k].user != user
      {
        if top[i].user == user {
          assert top[i] in top;
          return;
        }
        i := i + 1;
      }
    }

    /** The place on the board as it is, in every reachable state; on an exact board, one more than the
        number of better users. */
    method GetRank(user: Address) returns (r: Result<U32, RegistryError>)
      requires Now().Sound()
      ensures user !in profiles ==> r == Err(NotRegistered)
      ensures user in profiles ==> r.Ok? && RankFits(Now(), user, r.value)
    {
      if user !in profiles { return Err(NotRegistered); }
      var i := FindPlace(user);
      PlaceFits(Now(), user, i);
      return Ok(if i < |top| then i + 1 else UNRANKED);
    }
  }

  lemma PlaceFits(s: State, user: Address, i: nat)
    requires s.Sound() && user in s.profiles && i <= |s.top| && (i < |s.top| ==> s.top[i].user == user)
    requires i == |s.top| <==> !Holds(s.top, user)
    ensures RankFits(s, user, if i < |s.top| then i + 1 else UNRANKED)
  {
    PlaceShown(s, user, i);
    if s.Exact() {
      PlaceIsCount(s, user);
      PlaceCounts(s, user, i);
    }
  }

  lemma PlaceShown(s: State, user: Address, i: nat)
    requires i <= |s.top| <= LEADERBOARD_SIZE && (i < |s.top| ==> s.top[i].user == user)
    requires i == |s.top| <==> !Holds(s.top, user)
    ensures ShownAt(s, user, if i < |s.top| then i + 1 else UNRANKED)
  {
  }

  lemma PlaceCounts(s: State, user: Address, i: nat)
    requires user in s.profiles && i <= |s.top| <= LEADERBOARD_SIZE && (i < |s.top| ==> s.top[i].user == user)
    requires i < |s.top| ==> i == |Better(s.profiles, user)|
    requires i == |s.top| ==> |Better(s.profiles, user)| >= LEADERBOARD_SIZE
    ensures CountsBetter(s, user, if i < |s.top| then i + 1 else UNRANKED)
  {
  }

  /** `rank` is the user's place on the board as it is. */
  predicate ShownAt(s: State, user: Address, rank: U32) {
    if Holds(s.top, user) then 1 <= rank <= |s.top| && s.top[rank - 1].user == user else rank == UNRANKED
  }

  /** `rank` is one more than the number of better users, if that is on the board. */
  ghost predicate CountsBetter(s: State, user: Address, rank: U32)
    requires user in s.profiles
  {
    var better := |Better(s.profiles, user)|;
    rank == if better < LEADERBOARD_SIZE then better + 1 else UNRANKED
  }

  /** `rank` is the user's place on the board, and counts the better users if the board is exact. */
  ghost predicate RankFits(s: State, user: Address, rank: U32)
    requires user in s.profiles
  {
    ShownAt(s, user, rank) && (s.Exact() ==> CountsBetter(s, user, rank))
  }

  /** Registering somebody moves nobody else's key. */
  lemma StillRanked(s: State, user: Address, profile: Profile)
    requires s.Sound() && user !in s.profiles
    ensures Ranked(Times(s.profiles[user := profile]), s.top)
  {
    RankedAgree(Times(s.profiles), Times(s.profiles[user := profile]), s.top);
  }
}

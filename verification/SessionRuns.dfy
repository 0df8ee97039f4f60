/**
 Logins and the session cache with several clients at once. `login` looks into the
 cache and adds to it in two steps; loginOrCreate runs in between.
 */
module SessionRuns {
  import opened Common

  datatype Pc = Looking | Creating | Ended(ok: bool)

  /** One call of `login`. */
  datatype Client = Client(name: string, ip: string, pc: Pc)

  /** The cache holds for a name the IP of its live session. */
  datatype State = State(cache: map<string, string>, clients: seq<Client>)

  datatype Step =
    | Start(name: string, ip: string)
    | Look(i: nat)          // a live session under the name decides by its IP
    | Add(i: nat)           // loginOrCreate has succeeded
    | Fail(i: nat)          // loginOrCreate has thrown
    | Expire(name: string)

  const INIT := State(map[], [])

  predicate Enabled(s: State, step: Step) {
    match step
    case Start(_, _) => true
    case Look(i) => i < |s.clients| && s.clients[i].pc.Looking?
    case Add(i) => i < |s.clients| && s.clients[i].pc.Creating?
    case Fail(i) => i < |s.clients| && s.clients[i].pc.Creating?
    case Expire(_) => true
  }

  function Apply(s: State, step: Step): State
    requires Enabled(s, step)
  {
    match step
    case Start(name, ip) => s.(clients := s.clients + [Client(name, ip, Looking)])
    case Look(i) =>
      var c := s.clients[i];
      var pc := if c.name in s.cache then Ended(s.cache[c.name] == c.ip) else Creating;
      s.(clients := s.clients[i := c.(pc := pc)])
    case Add(i) =>
      var c := s.clients[i];
      State(s.cache[c.name := c.ip], s.clients[i := c.(pc := Ended(true))])
    case Fail(i) => s.(clients := s.clients[i := s.clients[i].(pc := Ended(false))])
    case Expire(name) => s.(cache := s.cache - {name})
  }

  function After(steps: seq<Step>): Option<State> {
    if steps == [] then Some(INIT)
    else
      var before := After(steps[..|steps| - 1]);
      if before.Some? && Enabled(before.value, steps[|steps| - 1])
      then Some(Apply(before.value, steps[|steps| - 1])) else None
  }

  /** The client has been given a token. */
  predicate LoggedIn(s: State, name: string, i: nat) {
    i < |s.clients| && s.clients[i].name == name && s.clients[i].pc == Ended(true)
  }

  /** Its token is accepted: there is a live session under the name, made from the same IP. */
  predicate Honoured(s: State, i: nat)
    requires i < |s.clients|
  {
    var c := s.clients[i];
    c.name in s.cache && s.cache[c.name] == c.ip
  }

  /** A look gives a token exactly when there is a live session from the IP of the client; without one it creates. */
  lemma LookDecides(s: State, i: nat)
    requires Enabled(s, Look(i))
    ensures var s' := Apply(s, Look(i));
      && (LoggedIn(s', s.clients[i].name, i) <==> Honoured(s, i))
      && (s'.clients[i].pc.Creating? <==> s.clients[i].name !in s.cache)
      && s'.cache == s.cache
  {
  }

  function CreatingOf(clients: seq<Client>, name: string): nat {
    if clients == [] then 0
    else
      var c := clients[|clients| - 1];
      CreatingOf(clients[..|clients| - 1], name) + if c.name == name && c.pc.Creating? then 1 else 0
  }

  /** Never more than `k` logins under the name are between the look and the add. */
  ghost predicate AtMostCreating(steps: seq<Step>, name: string, k: nat) {
    forall n :: 0 <= n <= |steps| && After(steps[..n]).Some? ==> CreatingOf(After(steps[..n]).value.clients, name) <= k
  }

  predicate NeverExpires(steps: seq<Step>, name: string) {
    forall n :: 0 <= n < |steps| ==> steps[n] != Expire(name)
  }

  /** In all runs with at most `k` such logins at once every token given out under the name stays good. */
  ghost predicate TokensStayGood(name: string, k: nat) {
    forall steps, i: nat ::
      (&& After(steps).Some? && AtMostCreating(steps, name, k) && NeverExpires(steps, name)
       && LoggedIn(After(steps).value, name, i)) ==> Honoured(After(steps).value, i)
  }

  // ---- one at a time -------------------------------------------------------

  lemma {:induction false} CreatingAtLeast(clients: seq<Client>, name: string, i: nat, j: nat)
    requires i < |clients| && clients[i].name == name && clients[i].pc.Creating?
    requires j < |clients| && clients[j].name == name && clients[j].pc.Creating?
    ensures CreatingOf(clients, name) >= if i == j then 1 else 2
  {
    var n := |clients| - 1;
    if i < n && j < n {
      CreatingAtLeast(clients[..n], name, i, j);
    } else if i < n {
      CreatingAtLeast(clients[..n], name, i, i);
    } else if j < n {
      CreatingAtLeast(clients[..n], name, j, j);
    }
  }

  /** While there is a live session nobody under the name creates one, and all tokens are for it. */
  ghost predicate Alone(s: State, name: string) {
    && (name in s.cache ==>
          forall i :: 0 <= i < |s.clients| && s.clients[i].name == name ==> !s.clients[i].pc.Creating?)
    && (forall i: nat :: LoggedIn(s, name, i) ==> Honoured(s, i))
  }

  lemma AloneStep(s: State, step: Step, name: string)
    requires Alone(s, name) && Enabled(s, step) && step != Expire(name)
    requires CreatingOf(s.clients, name) <= 1
    ensures Alone(Apply(s, step), name)
  {
    var s' := Apply(s, step);
    if step.Add? && s.clients[step.i].name == name {
      forall j | 0 <= j < |s.clients| && s.clients[j].name == name && s.clients[j].pc.Creating? ensures j == step.i {
        CreatingAtLeast(s.clients, name, step.i, j);
      }
    }
    forall i: nat | LoggedIn(s', name, i) ensures Honoured(s', i) {
      assert i < |s.clients|;
      if s.clients[i].pc == Ended(true) { assert LoggedIn(s, name, i); }
    }
  }

  lemma {:induction false} AloneAfter(steps: seq<Step>, name: string)
    requires After(steps).Some? && AtMostCreating(steps, name, 1) && NeverExpires(steps, name)
    ensures Alone(After(steps).value, name)
  {
    if steps != [] {
      var n := |steps| - 1;
      var before := steps[..n];
      assert AtMostCreating(before, name, 1) by {
        forall m | 0 <= m <= n ensures before[..m] == steps[..m] {}
      }
      AloneAfter(before, name);
      assert CreatingOf(After(steps[..n]).value.clients, name) <= 1;
      AloneStep(After(before).value, steps[n], name);
    }
  }

  // ---- two at once ---------------------------------------------------------

  /** Two clients look before either adds. */
  function Race(name: string): seq<Step> {
    [Start(name, "here"), Start(name, "there"), Look(0), Look(1), Add(0), Add(1)]
  }

  function RaceState(name: string, n: nat): State
    requires n <= 6
  {
    var here, there := Client(name, "here", Looking), Client(name, "there", Looking);
    match n
    case 0 => INIT
    case 1 => State(map[], [here])
    case 2 => State(map[], [here, there])
    case 3 => State(map[], [here.(pc := Creating), there])
    case 4 => State(map[], [here.(pc := Creating), there.(pc := Creating)])
    case 5 => State(map[name := "here"], [here.(pc := Ended(true)), there.(pc := Creating)])
    case 6 => State(map[name := "there"], [here.(pc := Ended(true)), there.(pc := Ended(true))])
  }

  lemma {:induction false} RaceRuns(name: string, n: nat)
    requires n <= 6
    ensures After(Race(name)[..n]) == Some(RaceState(name, n))
  {
    if n > 0 {
      RaceRuns(name, n - 1);
      assert Race(name)[..n][..n - 1] == Race(name)[..n - 1];
      assert Apply(RaceState(name, n - 1), Race(name)[n - 1]) == RaceState(name, n);
    }
  }

  lemma {:induction false} CreatingAtMost(clients: seq<Client>, name: string)
    ensures CreatingOf(clients, name) <= |clients|
  {
    if clients != [] { CreatingAtMost(clients[..|clients| - 1], name); }
  }

  lemma RaceSpoilsToken(name: string, k: nat)
    requires k >= 2
    ensures After(Race(name)).Some? && AtMostCreating(Race(name), name, k) && NeverExpires(Race(name), name)
    ensures var s := After(Race(name)).value; LoggedIn(s, name, 0) && LoggedIn(s, name, 1) && !Honoured(s, 0)
  {
    forall n | 0 <= n <= 6
      ensures After(Race(name)[..n]).Some? && CreatingOf(After(Race(name)[..n]).value.clients, name) <= k
    {
      RaceRuns(name, n);
      CreatingAtMost(RaceState(name, n).clients, name);
    }
    RaceRuns(name, 6);
    assert Race(name)[..6] == Race(name);
  }

  /**
   While sessions do not expire, every token given out under a name stays good in all runs
   exactly when no two logins under the name are between their look and their add. When
   two are, both may be given a token although the cache keeps the session of one only.
   */
  lemma TokensStayGoodIffOneAtATime(name: string, k: nat)
    ensures TokensStayGood(name, k) <==> k <= 1
  {
    if k <= 1 {
      forall steps, i: nat
        | After(steps).Some? && AtMostCreating(steps, name, k) && NeverExpires(steps, name)
          && LoggedIn(After(steps).value, name, i)
        ensures Honoured(After(steps).value, i)
      {
        AloneAfter(steps, name);
      }
    } else {
      RaceSpoilsToken(name, k);
    }
  }
}

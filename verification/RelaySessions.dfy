/** The relay's session limit under every interleaving of atomic steps. */
module RelaySessions {

  const LIMIT := 128

  /** Where one incoming connection is. A connection is known by its number. */
  datatype Stage =
    | Trying                 // about to load the counter
    | Loaded(current: int)   // about to compare and swap
    | Acquired               // holds a session, not yet tracked
    | Tracked                // in the connection table, being served
    | Untracked              // removed from the table, about to decrement
    | Refused
    | Finished

  datatype Step = Arrive(c: nat) | Load(c: nat) | CompareAndSwap(c: nat) | Track(c: nat) | Untrack(c: nat) | Decrement(c: nat)

  datatype Server = Server(sessions: int, stages: map<nat, Stage>, conns: set<nat>)

  const START := Server(0, map[], {})

  predicate Holds(stage: Stage) {
    stage.Acquired? || stage.Tracked? || stage.Untracked?
  }

  /** The connections that hold a session. */
  function Holders(stages: map<nat, Stage>): set<nat> {
    set c | c in stages && Holds(stages[c])
  }

  /** One atomic step; a step that does not fit the connection's stage does nothing. */
  function Next(s: Server, step: Step): Server {
    var c := step.c;
    if step.Arrive? then (if c in s.stages then s else s.(stages := s.stages[c := Trying]))
    else if c !in s.stages then s
    else match (step, s.stages[c])
      case (Load(_), Trying) =>
        s.(stages := s.stages[c := if s.sessions >= LIMIT then Refused else Loaded(s.sessions)])
      case (CompareAndSwap(_), Loaded(current)) =>
        if s.sessions == current then s.(sessions := current + 1, stages := s.stages[c := Acquired])
        else s.(stages := s.stages[c := Trying])
      case (Track(_), Acquired) => s.(conns := s.conns + {c}, stages := s.stages[c := Tracked])
      case (Untrack(_), Tracked) => s.(conns := s.conns - {c}, stages := s.stages[c := Untracked])
      case (Decrement(_), Untracked) => s.(sessions := s.sessions - 1, stages := s.stages[c := Finished])
      case _ => s
  }

  function Run(s: Server, steps: seq<Step>): Server
    decreases |steps|
  {
    if steps == [] then s else Run(Next(s, steps[0]), steps[1..])
  }

  ghost predicate Inv(s: Server) {
    && s.sessions == |Holders(s.stages)|
    && s.sessions <= LIMIT
    && (forall c :: c in s.stages && s.stages[c].Loaded? ==> s.stages[c].current < LIMIT)
    && (forall c :: c in s.conns <==> c in s.stages && s.stages[c].Tracked?)
  }

  function Weight(stages: map<nat, Stage>, c: nat): int {
    if c in stages && Holds(stages[c]) then 1 else 0
  }

  lemma HoldersMove(stages: map<nat, Stage>, c: nat, stage: Stage)
    ensures |Holders(stages[c := stage])| == |Holders(stages)| - Weight(stages, c) + (if Holds(stage) then 1 else 0)
  {
    var before := Holders(stages);
    var others := before - {c};
    assert before == if c in before then others + {c} else others;
    assert Holders(stages[c := stage]) == if Holds(stage) then others + {c} else others;
  }

  lemma MoveInv(s: Server, c: nat, stage: Stage, sessions: int, conns: set<nat>)
    requires Inv(s)
    requires stage.Loaded? ==> stage.current < LIMIT
    requires sessions == s.sessions - Weight(s.stages, c) + (if Holds(stage) then 1 else 0) && sessions <= LIMIT
    requires conns == if stage.Tracked? then s.conns + {c} else s.conns - {c}
    ensures Inv(Server(sessions, s.stages[c := stage], conns))
  {
    hide Holders;
    HoldersMove(s.stages, c, stage);
  }

  lemma NextInv(s: Server, step: Step)
    requires Inv(s)
    ensures Inv(Next(s, step))
  {
    var s', c := Next(s, step), step.c;
    if s'.stages != s.stages {
      var stage := s'.stages[c];
      assert stage.Tracked? || s'.conns == s.conns - {c};
      hide Holders;
      MoveInv(s, c, stage, s'.sessions, s'.conns);
    }
  }

  lemma {:induction false} RunInv(s: Server, steps: seq<Step>)
    requires Inv(s)
    ensures Inv(Run(s, steps))
    decreases |steps|
  {
    if steps != [] {
      NextInv(s, steps[0]);
      RunInv(Next(s, steps[0]), steps[1..]);
    }
  }

  /** In every interleaving the counter is exactly the number of held sessions,
      stays within the limit, and every tracked connection holds one. */
  lemma SessionsBounded(steps: seq<Step>)
    ensures var s := Run(START, steps);
            && s.sessions == |Holders(s.stages)|
            && 0 <= s.sessions <= 128
            && s.conns <= Holders(s.stages)
            && |s.conns| <= s.sessions
  {
    assert Holders(START.stages) == {};
    RunInv(START, steps);
    var s := Run(START, steps);
    SubsetSize(s.conns, Holders(s.stages));
  }

  lemma SubsetSize(a: set<nat>, b: set<nat>)
    requires a <= b
    ensures |a| <= |b|
  {
    assert b == a + (b - a);
  }

  /** A connection is refused only when all sessions were held at its load. */
  lemma RefusedOnlyWhenFull(steps: seq<Step>, c: nat)
    requires var s := Run(START, steps); c in s.stages && s.stages[c] == Trying && Next(s, Load(c)).stages[c] == Refused
    ensures |Holders(Run(START, steps).stages)| == 128
  {
    assert Holders(START.stages) == {};
    RunInv(START, steps);
  }
}

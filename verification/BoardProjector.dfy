/**
 The dashboard's board: read by one background thread at a time, its places worked out by one
 thread at a time, so that a board read during another's projection is never lost.

 Steps are the sections under the board's lock and the work between them.
 */
module BoardProjector {
  import opened Basics

  /** Boards are told apart by identity: the nth board read has id n. */
  datatype Board = Board(id: int, day: int)

  /** The stored places carry a day; `from` is the board they were worked out for. */
  datatype Projection = Projection(day: int, from: Board)

  datatype Phase =
    | Reading(day: int)
    | Projecting(board: Board)
    | Storing(board: Board, places: Option<Board>)

  /** What the lock guards. */
  datatype Fields = Fields(board: Option<Board>, reading: bool, projection: Option<Projection>, projecting: bool)

  const UNREAD := Fields(None, false, None, false)

  /** The locked section at a read's end, and whether its thread goes on to project. */
  function WithBoard(f: Fields, board: Board): Fields { f.(board := Some(board), reading := false, projecting := true) }

  /** The locked section at a projection's end. */
  function WithPlaces(f: Fields, board: Board, places: Option<Board>): Fields {
    f.(projection := if places.Some? then Some(Projection(board.day, places.value)) else f.projection,
       projecting := f.board.GetOr(board) != board)
  }

  /**
   `reader` and `projector` are the threads at work, `boards` counts the boards read, `tried`
   holds the ids of the boards that went through a projection, and `lost` is set once a read's
   thread could not be started.
   */
  datatype State = State(
    fields: Fields, reader: Option<int>, projector: Option<int>, threads: map<int, Phase>,
    boards: nat, tried: set<int>, lost: bool)

  datatype Step =
    | StartRead(t: int, day: int, works: bool)
    | FailRead(t: int)
    | Read(t: int)
    | Project(t: int, ok: bool)
    | Store(t: int)

  predicate Enabled(st: State, step: Step) {
    match step
    case StartRead(t, _, _) => t !in st.threads && !st.fields.reading
    case FailRead(t) => t in st.threads && st.threads[t].Reading?
    case Read(t) => t in st.threads && st.threads[t].Reading?
    case Project(t, _) => t in st.threads && st.threads[t].Projecting?
    case Store(t) => t in st.threads && st.threads[t].Storing?
  }

  function Next(st: State, step: Step): State
    requires Enabled(st, step)
  {
    match step
    case StartRead(t, day, works) =>
      if works then st.(fields := st.fields.(reading := true), reader := Some(t),
          threads := st.threads[t := Reading(day)])
      else st.(fields := st.fields.(reading := true), lost := true)
    case FailRead(t) => st.(fields := st.fields.(reading := false), reader := None, threads := st.threads - {t})
    case Read(t) =>
      var board := Board(st.boards, st.threads[t].day);
      var read := st.(fields := WithBoard(st.fields, board), reader := None, boards := st.boards + 1);
      if st.fields.projecting then read.(threads := st.threads - {t})
      else read.(threads := st.threads[t := Projecting(board)], projector := Some(t))
    case Project(t, ok) =>
      var board := st.threads[t].board;
      st.(threads := st.threads[t := Storing(board, if ok then Some(board) else None)], tried := st.tried + {board.id})
    case Store(t) =>
      var thread := st.threads[t];
      var stored := st.(fields := WithPlaces(st.fields, thread.board, thread.places));
      if stored.fields.projecting
      then stored.(threads := st.threads[t := Projecting(st.fields.board.GetOr(thread.board))])
      else stored.(threads := st.threads - {t}, projector := None)
  }

  // ----- What every reachable state keeps -----

  /** At most one thread reads and at most one projects, each while its flag is set. */
  ghost predicate OneOfEach(st: State) {
    && (st.reader.Some? ==> st.reader.value in st.threads)
    && (st.projector.Some? ==> st.projector.value in st.threads)
    && (forall t :: t in st.threads ==> (st.threads[t].Reading? <==> st.reader == Some(t)))
    && (forall t :: t in st.threads ==> (!st.threads[t].Reading? <==> st.projector == Some(t)))
    && (st.fields.projecting <==> st.projector.Some?)
    && (st.fields.reading <==> st.lost || st.reader.Some?) && (st.lost ==> st.reader.None?)
  }

  /** The newest board is the last one read. */
  predicate Newest(st: State) {
    if st.boards == 0 then st.fields.board.None? else st.fields.board.Some? && st.fields.board.value.id == st.boards - 1
  }

  /** The newest board has been projected, or the thread that projects will still come to it. */
  predicate NotLost(st: State) {
    st.projector.None? && st.fields.board.Some? ==> st.fields.board.value.id in st.tried
  }

  /** A board at work is one of those read; its own id tells it from every other. */
  predicate Known(st: State, board: Board) {
    && board.id < st.boards && st.fields.board.Some?
    && (board.id == st.fields.board.value.id ==> board == st.fields.board.value)
  }

  ghost predicate WorkWell(st: State, t: int)
    requires t in st.threads
  {
    match st.threads[t]
    case Reading(_) => true
    case Projecting(board) => Known(st, board) && OldPlaces(st, board)
    case Storing(board, places) =>
      && Known(st, board) && OldPlaces(st, board) && board.id in st.tried
      && (places.Some? ==> places.value == board)
  }

  predicate OldPlaces(st: State, board: Board) {
    st.fields.projection.Some? ==> st.fields.projection.value.from.id <= board.id
  }

  /** Stored places carry the day of the board they came from, which is no newer than the newest. */
  predicate PlacesWell(st: State) {
    st.fields.projection.Some? ==>
      && st.fields.projection.value.day == st.fields.projection.value.from.day
      && st.fields.projection.value.from.id < st.boards
  }

  ghost predicate Inv(st: State) {
    && OneOfEach(st) && Newest(st) && NotLost(st) && PlacesWell(st)
    && forall t :: t in st.threads ==> WorkWell(st, t)
  }

  lemma StepKeepsOneOfEach(st: State, step: Step)
    requires Inv(st) && Enabled(st, step)
    ensures OneOfEach(Next(st, step))
  {
    assert step.StartRead? || WorkWell(st, step.t);
  }

  lemma StepKeepsBoards(st: State, step: Step)
    requires Inv(st) && Enabled(st, step)
    ensures var n := Next(st, step); Newest(n) && NotLost(n) && PlacesWell(n)
  {
    assert step.StartRead? || WorkWell(st, step.t);
  }

  lemma StepKeepsWork(st: State, step: Step, t: int)
    requires Inv(st) && Enabled(st, step) && t in Next(st, step).threads
    ensures WorkWell(Next(st, step), t)
  {
    assert step.StartRead? || WorkWell(st, step.t);
    assert t in st.threads ==> WorkWell(st, t);
  }

  lemma StepKeepsInv(st: State, step: Step)
    requires Inv(st) && Enabled(st, step)
    ensures Inv(Next(st, step))
  {
    StepKeepsOneOfEach(st, step);
    StepKeepsBoards(st, step);
    forall t | t in Next(st, step).threads ensures WorkWell(Next(st, step), t) { StepKeepsWork(st, step, t); }
  }

  // ----- Whole runs -----

  ghost predicate Run(states: seq<State>, steps: seq<Step>) {
    && |states| == |steps| + 1 && states[0] == State(UNREAD, None, None, map[], 0, {}, false)
    && forall i :: 0 <= i < |steps| ==> Enabled(states[i], steps[i]) && states[i + 1] == Next(states[i], steps[i])
  }

  lemma {:induction false} RunKeepsInv(states: seq<State>, steps: seq<Step>, i: nat)
    requires Run(states, steps) && i < |states|
    ensures Inv(states[i])
  {
    if i > 0 {
      RunKeepsInv(states, steps, i - 1);
      StepKeepsInv(states[i - 1], steps[i - 1]);
    }
  }

  /** At most one thread projects. */
  lemma OneThreadProjects(states: seq<State>, steps: seq<Step>, i: nat, t: int, u: int)
    requires Run(states, steps) && i < |states| && t in states[i].threads && u in states[i].threads
    requires !states[i].threads[t].Reading? && !states[i].threads[u].Reading?
    ensures t == u && states[i].fields.projecting
  {
    RunKeepsInv(states, steps, i);
  }

  /**
   Whenever nothing projects, the newest board has itself been projected, even one read during another's
   projection.
   */
  lemma NoBoardIsLost(states: seq<State>, steps: seq<Step>, i: nat)
    requires Run(states, steps) && i < |states| && states[i].boards > 0 && !states[i].fields.projecting
    ensures states[i].fields.board.Some? && states[i].fields.board.value.id == states[i].boards - 1
    ensures states[i].boards - 1 in states[i].tried
  {
    RunKeepsInv(states, steps, i);
  }

  /** Stored places always carry the day of the board they came from. */
  lemma PlacesCarryTheirDay(states: seq<State>, steps: seq<Step>, i: nat)
    requires Run(states, steps) && i < |states| && states[i].fields.projection.Some?
    ensures states[i].fields.projection.value.day == states[i].fields.projection.value.from.day
  {
    RunKeepsInv(states, steps, i);
  }

  /** An older board's places never replace a newer one's. */
  lemma {:induction false} PlacesNeverGoBack(states: seq<State>, steps: seq<Step>, i: nat, j: nat)
    requires Run(states, steps) && i <= j < |states| && states[i].fields.projection.Some?
    ensures states[j].fields.projection.Some?
    ensures states[i].fields.projection.value.from.id <= states[j].fields.projection.value.from.id
  {
    if i < j {
      PlacesNeverGoBack(states, steps, i, j - 1);
      RunKeepsInv(states, steps, j - 1);
      assert steps[j - 1].StartRead? || WorkWell(states[j - 1], steps[j - 1].t);
    }
  }

  // ----- What is stored -----

  /** A finished read's board is the newest, with the Legend day its read was started for. */
  lemma ReadIsNewest(states: seq<State>, steps: seq<Step>, i: nat)
    requires Run(states, steps) && i < |steps| && steps[i].Read?
    ensures states[i].threads[steps[i].t].Reading?
    ensures states[i + 1].fields.board == Some(Board(states[i].boards, states[i].threads[steps[i].t].day))
    ensures states[i + 1].boards == states[i].boards + 1
  {}

  /**
   The places stored after a projection are its own board's and day's; a failed one, and any other step,
   changes none.
   */
  lemma StoredExactly(states: seq<State>, steps: seq<Step>, i: nat)
    requires Run(states, steps) && i < |steps|
    ensures steps[i].Store? ==> states[i].threads[steps[i].t].Storing?
    ensures steps[i].Store? && states[i].threads[steps[i].t].places.Some? ==>
              var board := states[i].threads[steps[i].t].board;
              states[i + 1].fields.projection == Some(Projection(board.day, board))
    ensures !steps[i].Store? || states[i].threads[steps[i].t].places.None? ==>
              states[i + 1].fields.projection == states[i].fields.projection
  {
    RunKeepsInv(states, steps, i);
    if steps[i].Store? { assert WorkWell(states[i], steps[i].t); }
  }

  /** The newest board's places are worked out and wait to be stored, or are stored. */
  predicate Placed(st: State, t: int, board: Board) {
    && st.fields.board == Some(board)
    && (|| (t in st.threads && st.threads[t] == Storing(board, Some(board)))
        || st.fields.projection == Some(Projection(board.day, board)))
  }

  lemma PlacedStays(st: State, step: Step, t: int, board: Board)
    requires Inv(st) && Enabled(st, step) && Placed(st, t, board)
    requires Next(st, step).boards == st.boards == board.id + 1
    ensures Placed(Next(st, step), t, board)
  {
    if step.Store? { assert WorkWell(st, step.t); }
    if t in st.threads { assert WorkWell(st, t); }
  }

  lemma ProjectPlaces(st: State, step: Step, board: Board)
    requires Inv(st) && Enabled(st, step) && step.Project? && step.ok && st.threads[step.t] == Projecting(board)
    ensures board.id < st.boards && Next(st, step).boards == st.boards
    ensures st.boards == board.id + 1 ==> Placed(Next(st, step), step.t, board)
  {
    assert WorkWell(st, step.t);
  }

  lemma {:induction false} PlacedInRun(states: seq<State>, steps: seq<Step>, k: nat, i: nat, board: Board)
    requires Run(states, steps) && k < i < |states| && steps[k].Project? && steps[k].ok
    requires states[k].threads[steps[k].t] == Projecting(board) && states[i].boards == board.id + 1
    ensures Placed(states[i], steps[k].t, board)
  {
    var last := i - 1;
    RunKeepsInv(states, steps, last);
    BoardsGrow(states, steps, k, last);
    BoardsGrow(states, steps, last, i);
    if last == k {
      ProjectPlaces(states[k], steps[k], board);
    } else {
      RunKeepsInv(states, steps, k);
      ProjectPlaces(states[k], steps[k], board);
      PlacedInRun(states, steps, k, last, board);
      PlacedStays(states[last], steps[last], steps[k].t, board);
    }
  }

  lemma {:induction false} BoardsGrow(states: seq<State>, steps: seq<Step>, i: nat, j: nat)
    requires Run(states, steps) && i <= j < |states|
    ensures states[i].boards <= states[j].boards
  {
    if i < j {
      BoardsGrow(states, steps, i, j - 1);
      assert states[j] == Next(states[j - 1], steps[j - 1]);
    }
  }

  /**
   Whenever nothing projects and the newest board's places were worked out, they are the stored ones,
   with its day.
   */
  lemma NewestPlacesAreStored(states: seq<State>, steps: seq<Step>, k: nat, i: nat)
    requires Run(states, steps) && k < i < |states| && !states[i].fields.projecting && states[i].fields.board.Some?
    requires steps[k].Project? && steps[k].ok
        && states[k].threads[steps[k].t] == Projecting(states[i].fields.board.value)
    ensures var newest := states[i].fields.board.value;
      states[i].fields.projection == Some(Projection(newest.day, newest))
  {
    RunKeepsInv(states, steps, i);
    PlacedInRun(states, steps, k, i, states[i].fields.board.value);
  }

  // ----- Whether reads can go on -----

  /** The step sets the flag for a read whose thread then cannot be started. */
  predicate StartFails(step: Step) { step.StartRead? && !step.works }

  lemma StepLoses(st: State, step: Step)
    requires Enabled(st, step)
    ensures Next(st, step).lost <==> st.lost || StartFails(step)
  {}

  /** A start was lost exactly when some earlier step's thread could not be started. */
  lemma {:induction false} LostExactly(states: seq<State>, steps: seq<Step>, i: nat)
    requires Run(states, steps) && i < |states|
    ensures states[i].lost <==> exists k :: 0 <= k < i && StartFails(steps[k])
  {
    if i > 0 {
      LostExactly(states, steps, i - 1);
      StepLoses(states[i - 1], steps[i - 1]);
    }
  }

  /** The flag is set with no thread reading exactly when a start was lost. */
  lemma FlagStuckExactly(states: seq<State>, steps: seq<Step>, i: nat)
    requires Run(states, steps) && i < |states|
    ensures (states[i].fields.reading && forall t :: t in states[i].threads ==> !states[i].threads[t].Reading?)
        <==> states[i].lost
  {
    RunKeepsInv(states, steps, i);
    var st := states[i];
    if st.reader.Some? {
      var t := st.reader.value;
      assert st.reader == Some(t) && t in st.threads;
      assert st.threads[t].Reading?;
    }
  }

  ghost predicate Walks(from: State, steps: seq<Step>, to: State)
    decreases |steps|
  {
    if steps == [] then from == to
    else Enabled(from, steps[0]) && Walks(Next(from, steps[0]), steps[1..], to)
  }

  /** Some steps lead to a new read of the board. */
  ghost predicate CanRead(st: State) {
    exists steps, to, t, day :: Walks(st, steps, to) && Enabled(to, StartRead(t, day, true))
  }

  lemma {:induction false} WalkKeepsLost(from: State, steps: seq<Step>, to: State)
    requires Inv(from) && from.lost && Walks(from, steps, to)
    ensures to.lost && Inv(to)
    decreases |steps|
  {
    if steps != [] {
      StepKeepsInv(from, steps[0]);
      StepLoses(from, steps[0]);
      WalkKeepsLost(Next(from, steps[0]), steps[1..], to);
    }
  }

  lemma ReadsGoOn(st: State)
    requires Inv(st) && !st.lost
    ensures CanRead(st)
  {
    var t := Unused(st.threads.Keys);
    if st.fields.reading {
      var reader := st.reader.value;
      var to := Next(st, FailRead(reader));
      assert Walks(to, [], to) && [FailRead(reader)][1..] == [];
      assert Walks(st, [FailRead(reader)], to) && Enabled(to, StartRead(t, 0, true));
    } else {
      assert Walks(st, [], st) && Enabled(st, StartRead(t, 0, true));
    }
  }

  lemma LostStaysStuck(st: State)
    requires Inv(st) && st.lost
    ensures !CanRead(st)
  {
    forall walked, to, t: int, day: int | Walks(st, walked, to) ensures !Enabled(to, StartRead(t, day, true)) {
      WalkKeepsLost(st, walked, to);
    }
  }

  /** The board can be read again exactly when no start was lost, whatever else has happened. */
  lemma ReadsGoOnExactly(states: seq<State>, steps: seq<Step>, i: nat)
    requires Run(states, steps) && i < |states|
    ensures CanRead(states[i]) <==> !exists k :: 0 <= k < i && StartFails(steps[k])
  {
    RunKeepsInv(states, steps, i);
    LostExactly(states, steps, i);
    if states[i].lost { LostStaysStuck(states[i]); } else { ReadsGoOn(states[i]); }
  }

  /** A start can be lost: at the very first read. */
  lemma AStartCanBeLost(day: int)
    ensures exists states, steps :: Run(states, steps) && |steps| == 1 && !CanRead(states[1])
  {
    var start := State(UNREAD, None, None, map[], 0, {}, false);
    var step := StartRead(0, day, false);
    var states, steps := [start, Next(start, step)], [step];
    assert Run(states, steps);
    RunKeepsInv(states, steps, 1);
    LostStaysStuck(states[1]);
  }

  // ----- The locked sections, on the board's own fields -----

  class DashboardBoard {
    var board: Option<Board>
    var reading: bool
    var projection: Option<Projection>
    var projecting: bool

    function Value(): Fields
      reads this
    {
      Fields(board, reading, projection, projecting)
    }

    constructor ()
      ensures Value() == UNREAD
    {
      board, reading, projection, projecting := None, false, None, false;
    }

    /**
     The locked section of `current`: a due read is the machine's StartRead, whether or not its thread
     then starts.
     */
    method Start(due: bool, ghost st: State, ghost step: Step) returns (start: bool)
      requires st.fields == Value() && step.StartRead? && step.t !in st.threads
      modifies `reading
      ensures start <==> due && Enabled(st, step)
      ensures start ==> Value() == Next(st, step).fields
      ensures !start ==> Value() == st.fields
    {
      start := !reading && due;
      if start {
        reading := true;
      }
    }

    /** A failed read's last section is the machine's FailRead: another may start. */
    method ReadFailed(ghost st: State, ghost t: int)
      requires Inv(st) && st.fields == Value() && Enabled(st, FailRead(t))
      modifies `reading
      ensures Value() == Next(st, FailRead(t)).fields
      ensures forall u :: u in Next(st, FailRead(t)).threads ==> !Next(st, FailRead(t)).threads[u].Reading?
    {
      reading := false;
    }

    /**
     A read's last section is the machine's Read, and its thread goes on to project exactly when the
     machine's does.
     */
    method ReadDone(read: Board, ghost st: State, ghost t: int) returns (project: bool)
      requires Inv(st) && st.fields == Value() && Enabled(st, Read(t)) && read == Board(st.boards, st.threads[t].day)
      modifies this
      ensures Value() == Next(st, Read(t)).fields
      ensures project <==> Next(st, Read(t)).projector == Some(t)
      ensures project <==> t in Next(st, Read(t)).threads && Next(st, Read(t)).threads[t] == Projecting(read)
    {
      assert st.projector != Some(t);
      board, reading := Some(read), false;
      project, projecting := !projecting, true;
    }

    /**
     A projection's last section is the machine's Store; the thread goes on exactly with a newest board
     that is another.
     */
    method Projected(done: Board, places: Option<Board>, ghost st: State, ghost t: int)
      returns (project: bool, next: Board)
      requires Inv(st) && st.fields == Value() && Enabled(st, Store(t)) && st.threads[t] == Storing(done, places)
      modifies this
      ensures Value() == Next(st, Store(t)).fields
      ensures project <==> t in Next(st, Store(t)).threads
      ensures project ==> Next(st, Store(t)).threads[t] == Projecting(next) && board == Some(next) && next != done
    {
      if places.Some? {
        projection := Some(Projection(done.day, places.value));
      }
      next := board.GetOr(done);
      project := next != done;
      projecting := project;
    }
  }
}

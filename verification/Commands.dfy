/** The command loop of the manager, and what the tracked program may rely on. */
module Commands {
  import opened Wrappers
  import opened Paging
  import opened Layout
  import opened Records
  import opened TrackedProcess
  import opened MemoryInfo
  import opened Diff
  import opened RestoreLayout
  import opened Tracking

  datatype Command =
    | CheckpointMe | DiffMe | RestoreMe | DumpStatsMe | NopMe | SaveForMe | GiveBackMe | DetachIt | ContIt | Unknown

  const ACK := "OK!\n"

  /** A line is recognised by its first characters; the first match counts. */
  function Parse(line: string): Command {
    if "checkpoint.me" <= line then CheckpointMe
    else if "diff.me" <= line then DiffMe
    else if "restore.me" <= line then RestoreMe
    else if "dump_stats.me" <= line then DumpStatsMe
    else if "nop.me" <= line then NopMe
    else if "save_for.me" <= line then SaveForMe
    else if "give_back.me" <= line then GiveBackMe
    else if "detach.it" <= line then DetachIt
    else if "cont.it" <= line then ContIt
    else Unknown
  }

  lemma OneLiteral(line: string)
    ensures "checkpoint.me" <= line ==> line[0] == 'c' && line[1] == 'h'
    ensures "diff.me" <= line ==> line[0] == 'd' && line[1] == 'i'
    ensures "restore.me" <= line ==> line[0] == 'r'
    ensures "dump_stats.me" <= line ==> line[0] == 'd' && line[1] == 'u'
    ensures "nop.me" <= line ==> line[0] == 'n'
    ensures "save_for.me" <= line ==> line[0] == 's'
    ensures "give_back.me" <= line ==> line[0] == 'g'
    ensures "detach.it" <= line ==> line[0] == 'd' && line[1] == 'e'
    ensures "cont.it" <= line ==> line[0] == 'c' && line[1] == 'o'
  {
  }

  /** Which text is which command: no line begins with two of the texts. */
  lemma ParseReads(line: string)
    ensures Parse(line) == CheckpointMe <==> "checkpoint.me" <= line
    ensures Parse(line) == DiffMe <==> "diff.me" <= line
    ensures Parse(line) == RestoreMe <==> "restore.me" <= line
    ensures Parse(line) == DumpStatsMe <==> "dump_stats.me" <= line
    ensures Parse(line) == NopMe <==> "nop.me" <= line
    ensures Parse(line) == SaveForMe <==> "save_for.me" <= line
    ensures Parse(line) == GiveBackMe <==> "give_back.me" <= line
    ensures Parse(line) == DetachIt <==> "detach.it" <= line
    ensures Parse(line) == ContIt <==> "cont.it" <= line
  {
    OneLiteral(line);
  }

  /**
   How the loop ends: the input ends, the program is killed, a command lacks data that should have been
   sent before, or something fails that is not a matter of the commands.
   */
  datatype Outcome = Finished | Killed | Starved | Failed

  /** The stretches of a run: of the program, and of the manager while the program is stopped. */
  datatype EventKind = Running | Checkpointing | Restoring | Failing

  /** What the manager answers, how it ends, how many restores there were, and what happens to the process. */
  datatype Transcript = Transcript(replies: seq<string>, outcome: Outcome, restores: nat, kinds: seq<EventKind>)
  {
    function After(first: seq<string>, stretches: seq<EventKind>): Transcript {
      Transcript(first + replies, outcome, restores, stretches + kinds)
    }
  }

  /** What the manager does with a list of lines when nothing goes wrong. The program runs before every command. */
  function Replies(lines: seq<string>, revived: nat, keepalive: int, scratch: Option<string>): Transcript
    decreases |lines|
  {
    if lines == [] then Transcript([], Finished, revived, [])
    else match Parse(lines[0])
      case RestoreMe =>
        if revived == keepalive - 1 then Transcript([], Killed, revived, [Running])
        else Replies(lines[1..], revived + 1, keepalive, scratch).After([ACK], [Running, Restoring])
      case SaveForMe =>
        if |lines| == 1 then Transcript([ACK], Finished, revived, [Running])
        else Replies(lines[2..], revived, keepalive, Some(lines[1])).After([ACK], [Running])
      case GiveBackMe =>
        if scratch.None? then Transcript([], Starved, revived, [Running])
        else Replies(lines[1..], revived, keepalive, scratch).After([scratch.value], [Running])
      case CheckpointMe => Replies(lines[1..], revived, keepalive, scratch).After([ACK], [Running, Checkpointing])
      case DiffMe => Replies(lines[1..], revived, keepalive, scratch).After([ACK], [Running])
      case DumpStatsMe => Replies(lines[1..], revived, keepalive, scratch).After([ACK], [Running])
      case NopMe => Replies(lines[1..], revived, keepalive, scratch).After([ACK], [Running])
      case _ => Replies(lines[1..], revived, keepalive, scratch).After([], [Running])
  }

  /**
   The protocol by its texts: what is answered to a line that begins with each of them, and what happens
   to the process.
   */
  lemma ProtocolByText(lines: seq<string>, revived: nat, keepalive: int, scratch: Option<string>)
    requires lines != []
    ensures var t, line := Replies(lines, revived, keepalive, scratch), lines[0];
      var rest := Replies(lines[1..], revived, keepalive, scratch);
      && ("checkpoint.me" <= line ==> t == rest.After(["OK!\n"], [Running, Checkpointing]))
      && ("diff.me" <= line ==> t == rest.After(["OK!\n"], [Running]))
      && ("restore.me" <= line ==>
            if revived == keepalive - 1 then t == Transcript([], Killed, revived, [Running])
            else t == Replies(lines[1..], revived + 1, keepalive, scratch).After(["OK!\n"], [Running, Restoring]))
      && ("dump_stats.me" <= line ==> t == rest.After(["OK!\n"], [Running]))
      && ("nop.me" <= line ==> t == rest.After(["OK!\n"], [Running]))
      && ("save_for.me" <= line ==>
            if |lines| == 1 then t == Transcript(["OK!\n"], Finished, revived, [Running])
            else t == Replies(lines[2..], revived, keepalive, Some(lines[1])).After(["OK!\n"], [Running]))
      && ("give_back.me" <= line ==>
            if scratch.None? then t == Transcript([], Starved, revived, [Running])
            else t == rest.After([scratch.value], [Running]))
      && ("detach.it" <= line ==> t == rest.After([], [Running]))
      && ("cont.it" <= line ==> t == rest.After([], [Running]))
    ensures !BeginsCommand(lines[0]) ==>
      Replies(lines, revived, keepalive, scratch) ==
      Replies(lines[1..], revived, keepalive, scratch).After([], [Running])
  {
    ParseReads(lines[0]);
    hide Parse;
  }

  /** The line begins with one of the texts of the protocol. */
  predicate BeginsCommand(line: string) {
    || "checkpoint.me" <= line || "diff.me" <= line || "restore.me" <= line || "dump_stats.me" <= line
    || "nop.me" <= line || "save_for.me" <= line || "give_back.me" <= line || "detach.it" <= line || "cont.it" <= line
  }

  /** How many lines begin with a text. */
  function Beginning(text: string, lines: seq<string>): nat {
    if lines == [] then 0 else (if text <= lines[0] then 1 else 0) + Beginning(text, lines[1..])
  }

  /**
   Where no data is exchanged, the process is restored once for every line that begins with
   "restore.me", until the line at which it is killed.
   */
  lemma {:induction false} RestoresByText(lines: seq<string>, revived: nat, keepalive: int, scratch: Option<string>)
    requires forall line | line in lines :: !("save_for.me" <= line) && !("give_back.me" <= line)
    ensures var asked, happened := Beginning("restore.me", lines),
              CountOf(Replies(lines, revived, keepalive, scratch).kinds, Restoring);
      happened == if revived <= keepalive - 1 < revived + asked then keepalive - 1 - revived else asked
    decreases |lines|
  {
    NoStretches();
    if lines != [] {
      ProtocolByText(lines, revived, keepalive, scratch);
      hide Replies, CountOf;
      var next := if "restore.me" <= lines[0] then revived + 1 else revived;
      OneLiteral(lines[0]);
      assert lines[0] in lines && forall line | line in lines[1..] :: line in lines;
      RestoresByText(lines[1..], next, keepalive, scratch);
      CountStretches(Replies(lines[1..], next, keepalive, scratch).kinds);
    }
  }

  /** The calls of the tracee library that wait for one acknowledgement each. */
  predicate Waits(line: string) {
    "checkpoint.me" <= line || "restore.me" <= line || "dump_stats.me" <= line || "nop.me" <= line
  }

  /**
   A program that uses the library never waits in vain: every call gets exactly one acknowledgement,
   up to the restore at which it is killed.
   */
  lemma {:induction false} OneAckPerCall(lines: seq<string>, revived: nat, keepalive: int, scratch: Option<string>)
    requires forall k | 0 <= k < |lines| :: Waits(lines[k])
    ensures var t := Replies(lines, revived, keepalive, scratch);
      && (forall r | r in t.replies :: r == "OK!\n")
      && (t.outcome == Finished ==> |t.replies| == |lines|)
      && (t.outcome != Finished ==>
          t.outcome == Killed && |t.replies| < |lines| && "restore.me" <= lines[|t.replies|])
    decreases |lines|
  {
    if lines != [] {
      ProtocolByText(lines, revived, keepalive, scratch);
      assert Waits(lines[0]);
      hide Replies, Waits;
      var rest := lines[1..];
      forall k | 0 <= k < |rest|
        ensures Waits(rest[k])
      {
        assert rest[k] == lines[k + 1];
      }
      if "restore.me" <= lines[0] {
        if revived != keepalive - 1 { OneAckPerCall(rest, revived + 1, keepalive, scratch); }
      } else {
        OneAckPerCall(rest, revived, keepalive, scratch);
      }
    }
  }

  /**
   The restores that the lines ask for: a line that is data to be saved is not a command, and nothing
   is read after a command that lacks its data.
   */
  function RestoresAsked(lines: seq<string>, scratch: Option<string>): nat
    decreases |lines|
  {
    if lines == [] then 0
    else if "restore.me" <= lines[0] then 1 + RestoresAsked(lines[1..], scratch)
    else if "save_for.me" <= lines[0] then if |lines| == 1 then 0 else RestoresAsked(lines[2..], Some(lines[1]))
    else if "give_back.me" <= lines[0] && scratch.None? then 0
    else RestoresAsked(lines[1..], scratch)
  }

  /**
   The keepalive bound. A process that may live for at least one request is restored at most
   `keepalive - 1` times, and killed exactly when it asks for one more.
   */
  lemma {:induction false} KeepaliveBound(lines: seq<string>, revived: nat, keepalive: int, scratch: Option<string>)
    requires revived <= keepalive - 1
    ensures var t := Replies(lines, revived, keepalive, scratch);
      && t.restores <= keepalive - 1
      && (t.outcome == Killed <==> RestoresAsked(lines, scratch) > keepalive - 1 - revived)
      && t.restores == if t.outcome == Killed then keepalive - 1 else revived + RestoresAsked(lines, scratch)
    decreases |lines|
  {
    if lines != [] {
      var line := lines[0];
      ParseReads(line);
      hide Parse;
      if "save_for.me" <= line {
        if |lines| > 1 { KeepaliveBound(lines[2..], revived, keepalive, Some(lines[1])); }
      } else if "restore.me" <= line {
        if revived != keepalive - 1 { KeepaliveBound(lines[1..], revived + 1, keepalive, scratch); }
      } else if !("give_back.me" <= line) || scratch.Some? {
        KeepaliveBound(lines[1..], revived, keepalive, scratch);
      }
    }
  }

  /** With a keepalive of zero or less the test for equality never fires: there is no bound at all. */
  lemma {:induction false} NoBoundBelowOne(lines: seq<string>, revived: nat, keepalive: int, scratch: Option<string>)
    requires keepalive - 1 < revived
    ensures Replies(lines, revived, keepalive, scratch).outcome != Killed
    decreases |lines|
  {
    hide Parse;
    if lines != [] {
      var c := Parse(lines[0]);
      if c == SaveForMe {
        if |lines| > 1 { NoBoundBelowOne(lines[2..], revived, keepalive, Some(lines[1])); }
      } else {
        NoBoundBelowOne(lines[1..], if c == RestoreMe then revived + 1 else revived, keepalive, scratch);
      }
    }
  }

  function CountOf(kinds: seq<EventKind>, kind: EventKind): nat {
    if kinds == [] then 0 else (if kinds[0] == kind then 1 else 0) + CountOf(kinds[1..], kind)
  }

  lemma CountStretches(kinds: seq<EventKind>)
    ensures CountOf([Running] + kinds, Restoring) == CountOf(kinds, Restoring)
    ensures CountOf([Running, Checkpointing] + kinds, Restoring) == CountOf(kinds, Restoring)
    ensures CountOf([Running, Restoring] + kinds, Restoring) == CountOf(kinds, Restoring) + 1
  {
    CountFirst(Running, kinds);
    CountFirst(Checkpointing, kinds);
    CountFirst(Restoring, kinds);
    CountFirst(Running, [Checkpointing] + kinds);
    CountFirst(Running, [Restoring] + kinds);
    assert [Running] + ([Checkpointing] + kinds) == [Running, Checkpointing] + kinds;
    assert [Running] + ([Restoring] + kinds) == [Running, Restoring] + kinds;
  }

  lemma CountFirst(first: EventKind, kinds: seq<EventKind>)
    ensures CountOf([first] + kinds, Restoring) == CountOf(kinds, Restoring) + if first == Restoring then 1 else 0
  {
    assert ([first] + kinds)[1..] == kinds;
  }

  lemma NoStretches()
    ensures CountOf([], Restoring) == 0 && CountOf([Running], Restoring) == 0
  {
  }

  /** There is one restore of the process for every restore that is counted. */
  lemma {:induction false} RestoresHappen(lines: seq<string>, revived: nat, keepalive: int, scratch: Option<string>)
    ensures var t := Replies(lines, revived, keepalive, scratch);
      t.restores == revived + CountOf(t.kinds, Restoring)
    decreases |lines|
  {
    hide Parse, CountOf;
    NoStretches();
    if lines != [] {
      var c := Parse(lines[0]);
      if c == SaveForMe {
        if |lines| > 1 {
          RestoresHappen(lines[2..], revived, keepalive, Some(lines[1]));
          CountStretches(Replies(lines[2..], revived, keepalive, Some(lines[1])).kinds);
        }
      } else {
        var next := if c == RestoreMe then revived + 1 else revived;
        RestoresHappen(lines[1..], next, keepalive, scratch);
        CountStretches(Replies(lines[1..], next, keepalive, scratch).kinds);
      }
    }
  }

  // ---- The history of a run ----

  /** One stretch of a run, from one moment of the process to another. */
  datatype Event = Event(kind: EventKind, from: Moment, to: Moment)

  function Kinds(log: seq<Event>): (kinds: seq<EventKind>)
    ensures |kinds| == |log|
  {
    seq(|log|, k requires 0 <= k < |log| => log[k].kind)
  }

  /** Between two moments nothing happens to the process but time, which looking at its layout takes. */
  predicate Flows(a: Moment, b: Moment) {
    a.world == b.world && a.base == b.base && a.refusals == b.refusals && a.time <= b.time
  }

  /** From `start` to `end`, every event beginning where the last one ended. */
  predicate FollowsFrom(start: Moment, log: seq<Event>, end: Moment) {
    if log == [] then Flows(start, end)
    else FollowsFrom(start, log[..|log| - 1], log[|log| - 1].from) && Flows(log[|log| - 1].to, end)
  }

  /** The layout that the kernel shows when event `e` looks at the process in the state in which it leaves it. */
  function ShownAt(process: Process, e: Event): seq<Vma> {
    Visible(process.kernel(e.from.time, e.to.world.space))
  }

  /** The layout that the kernel shows when event `e` begins. */
  function ShownBefore(process: Process, e: Event): seq<Vma> {
    Visible(process.kernel(e.from.time, e.from.world.space))
  }

  /** The latest checkpoint among the first `k` events. */
  function SnapshotOf(log: seq<Event>, k: nat): (j: Option<nat>)
    requires k <= |log|
    ensures j.Some? ==> j.value < k && log[j.value].kind == Checkpointing
  {
    if k == 0 then None
    else if log[k - 1].kind == Checkpointing then Some(k - 1)
    else SnapshotOf(log, k - 1)
  }

  /** The same pages, the same protections, and the same contents wherever a page is readable or writable. */
  ghost predicate SameProcess(a: AddressSpace, b: AddressSpace) {
    && b.Keys == a.Keys
    && forall p | p in a :: b[p].prot == a[p].prot && (a[p].prot.r || a[p].prot.w ==> b[p].data == a[p].data)
  }

  ghost predicate SameWorld(a: World, b: World) { SameProcess(a.space, b.space) && a.brk == b.brk }

  /** The program ran: its memory is what it makes of what it found. */
  ghost predicate Ran(process: Process, e: Event) {
    e.to == e.from.(time := e.from.time + 1, world := process.behave(e.from.time, e.from.world, e.from.base))
  }

  /** A snapshot was taken: nothing has changed but the soft-dirty bits, which are now relative to it. */
  ghost predicate Snapshotted(process: Process, e: Event) {
    && e.to == Moment(e.from.time + 1, Contents(e.from.world.space),
                      World(Cleared(e.from.world.space), e.from.world.brk), e.from.refusals)
    && Capturable(ShownAt(process, e), e.to.world.space)
  }

  /**
   The memory is one that can be brought back to snapshot `c`: heap and stack are where they have to be,
   no map has become too long to be read, and not too many adjacent pages have to be given back.
   */
  ghost predicate CanBeBroughtBack(process: Process, c: Event, from: Moment) {
    var ss, sp, brk := ShownAt(process, c), from.world.space, from.world.brk;
    && Restorable(Table(ss), Visible(process.kernel(from.time, sp)), brk)
    && ContentsCanBeRestored(ss, c.to.world.space, process, from.time, from.world)
  }

  /**
   The process was brought back to snapshot `c`. Its whole memory is that of the snapshot exactly if the
   maps without permissions were intact when the restore began.
   */
  ghost predicate BroughtBack(process: Process, c: Event, e: Event) {
    var snap, now, ms := c.to.world.space, e.to.world.space, Table(ShownAt(process, c));
    && CanBeBroughtBack(process, c, e.from)
    && SameProcess(snap, now) && BreakAtHeap(ms, e.to.world.brk)
    && now == Cleared(now) && e.to.base == Contents(now)
    && (Contents(now) == Contents(snap) <==>
        OthersIntact(ms, Contents(snap), e.from.world.space, ShownBefore(process, e)))
  }

  /** Event `k` is what its kind says. */
  ghost predicate HappensAt(process: Process, log: seq<Event>, k: nat)
    requires k < |log|
  {
    match log[k].kind
    case Running => Ran(process, log[k])
    case Checkpointing => Snapshotted(process, log[k])
    case Restoring => SnapshotOf(log, k).Some? && BroughtBack(process, log[SnapshotOf(log, k).value], log[k])
    case Failing => true
  }

  /** `log` is what happened to the process between two moments. */
  ghost predicate History(process: Process, start: Moment, log: seq<Event>, end: Moment) {
    && FollowsFrom(start, log, end)
    && forall k: nat | k < |log| :: HappensAt(process, log, k)
  }

  lemma {:induction false} SnapshotPrefix(log: seq<Event>, e: Event, k: nat)
    requires k <= |log|
    ensures SnapshotOf(log + [e], k) == SnapshotOf(log, k)
  {
    if k > 0 { SnapshotPrefix(log, e, k - 1); }
  }

  /** One more event. */
  lemma {:induction false} Extend(process: Process, start: Moment, log: seq<Event>, mid: Moment, e: Event)
    requires History(process, start, log, mid) && Flows(mid, e.from)
    requires e.kind == Running ==> Ran(process, e)
    requires e.kind == Checkpointing ==> Snapshotted(process, e)
    requires e.kind == Restoring ==>
      SnapshotOf(log, |log|).Some? && BroughtBack(process, log[SnapshotOf(log, |log|).value], e)
    ensures History(process, start, log + [e], e.to) && Kinds(log + [e]) == Kinds(log) + [e.kind]
    ensures SnapshotOf(log + [e], |log| + 1) == if e.kind == Checkpointing then Some(|log|) else SnapshotOf(log, |log|)
  {
    hide Ran, Snapshotted, BroughtBack, Flows;
    var l := log + [e];
    assert l[..|log|] == log;
    LaterEnd(start, log, mid, e.from);
    FlowsOn(e.to);
    SnapshotPrefix(log, e, |log|);
    forall k: nat | k < |l|
      ensures HappensAt(process, l, k)
    {
      SnapshotPrefix(log, e, k);
      if k < |log| {
        assert l[k] == log[k];
        assert HappensAt(process, log, k);
      }
    }
  }

  lemma FlowsOn(a: Moment)
    ensures Flows(a, a)
  {
  }

  lemma LaterEnd(start: Moment, log: seq<Event>, end: Moment, later: Moment)
    requires FollowsFrom(start, log, end) && Flows(end, later)
    ensures FollowsFrom(start, log, later)
  {
  }

  lemma {:induction false} LinkAt(start: Moment, log: seq<Event>, end: Moment, k: nat)
    requires FollowsFrom(start, log, end) && 0 < k < |log|
    ensures Flows(log[k - 1].to, log[k].from)
  {
    hide Flows;
    var n := |log| - 1;
    if k < n {
      LinkAt(start, log[..n], log[n].from, k);
    } else {
      assert log[..n][n - 1] == log[n - 1];
    }
  }

  // ---- Request isolation ----

  /** Event `k` is a request that starts right after a restore. */
  predicate StartsRestored(log: seq<Event>, k: nat) {
    0 < k < |log| && log[k - 1].kind == Restoring && log[k].kind == Running
  }

  /**
   Any two requests that start after restores to the same snapshot start from the same memory, break
   included.
   */
  ghost predicate Isolated(log: seq<Event>) {
    forall i: nat, k: nat |
      StartsRestored(log, i) && StartsRestored(log, k) && SnapshotOf(log, i) == SnapshotOf(log, k) ::
      SameWorld(log[i].from.world, log[k].from.world)
  }

  /** A program that uses its memory only as its permissions allow, and no other source of information. */
  ghost predicate Oblivious(process: Process) {
    forall t: nat, u: nat, v: World, w: World, a: map<nat, PageData>, b: map<nat, PageData> | SameWorld(v, w) ::
      SameWorld(process.behave(t, v, a), process.behave(u, w, b))
  }

  lemma StartOfRequest(process: Process, start: Moment, log: seq<Event>, end: Moment, k: nat)
    requires History(process, start, log, end) && StartsRestored(log, k)
    ensures SnapshotOf(log, k).Some?
    ensures var c := log[SnapshotOf(log, k).value];
      SameProcess(c.to.world.space, log[k].from.world.space)
      && BreakAtHeap(Table(ShownAt(process, c)), log[k].from.world.brk)
  {
    hide SameProcess, BreakAtHeap, OthersIntact;
    LinkAt(start, log, end, k);
    assert HappensAt(process, log, k - 1);
  }

  lemma OneBreak(ms: seq<MapRec>, a: nat, b: nat)
    requires BreakAtHeap(ms, a) && BreakAtHeap(ms, b)
    ensures a == b
  {
    hide MapRec.Named;
    var h: nat :| OnlyAt(ms, HEAP, h) && a == ms[h].vma.end;
    var k: nat :| OnlyAt(ms, HEAP, k) && b == ms[k].vma.end;
    assert ms[k].Named(HEAP);
  }

  /**
   Request isolation: in every history, two requests after restores to the same snapshot start from the
   same memory, whatever the requests before them did. So a program that depends on nothing else also
   leaves the same memory.
   */
  lemma RequestsAreIsolated(process: Process, start: Moment, log: seq<Event>, end: Moment, i: nat, k: nat)
    requires History(process, start, log, end) && StartsRestored(log, i) && StartsRestored(log, k)
    requires SnapshotOf(log, i) == SnapshotOf(log, k)
    ensures SameWorld(log[i].from.world, log[k].from.world)
    ensures Oblivious(process) ==> SameWorld(log[i].to.world, log[k].to.world)
  {
    hide BreakAtHeap;
    StartOfRequest(process, start, log, end, i);
    StartOfRequest(process, start, log, end, k);
    OneBreak(Table(ShownAt(process, log[SnapshotOf(log, i).value])), log[i].from.world.brk, log[k].from.world.brk);
    assert HappensAt(process, log, i) && HappensAt(process, log, k);
  }

  lemma HistoryIsIsolated(process: Process, start: Moment, log: seq<Event>, end: Moment)
    requires History(process, start, log, end)
    ensures Isolated(log)
  {
    hide History, SameWorld;
    forall i: nat, k: nat | StartsRestored(log, i) && StartsRestored(log, k) && SnapshotOf(log, i) == SnapshotOf(log, k)
      ensures SameWorld(log[i].from.world, log[k].from.world)
    {
      RequestsAreIsolated(process, start, log, end, i, k);
    }
  }

  /** A snapshot's tables say which process it restores. */
  lemma RestoredIsSame(ms: seq<MapRec>, snap: AddressSpace, sp: AddressSpace)
    requires Describes(Vmas(ms), snap) && Restored(ms, Contents(snap), sp)
    ensures SameProcess(snap, sp)
  {
    hide Describes, Restored;
    RestoredDescribes(ms, Contents(snap), sp);
    SameKeys(Vmas(ms), snap, sp);
    forall p | p in snap
      ensures sp[p].prot == snap[p].prot && (snap[p].prot.r || snap[p].prot.w ==> sp[p].data == snap[p].data)
    {
      RestoredPage(ms, snap, sp, p);
    }
  }

  lemma SameKeys(vs: seq<Vma>, a: AddressSpace, b: AddressSpace)
    requires Describes(vs, a) && Describes(vs, b)
    ensures a.Keys == b.Keys
  {
    hide Sorted, Covers;
  }

  lemma RestoredPage(ms: seq<MapRec>, snap: AddressSpace, sp: AddressSpace, p: nat)
    requires Describes(Vmas(ms), snap) && Restored(ms, Contents(snap), sp) && p in snap && p in sp
    ensures sp[p].prot == snap[p].prot && (snap[p].prot.r || snap[p].prot.w ==> sp[p].data == snap[p].data)
  {
    hide Describes;
    RestoredDescribes(ms, Contents(snap), sp);
    var i := HolderIn(ms, snap, p);
    MappedBy(ms, snap, i, p);
    MappedBy(ms, sp, i, p);
    assert ms[i].Accessible() ==> Contents(sp)[p] == Contents(snap)[p];
  }

  // ---- What depends on the ranges of the tables only ----

  lemma SameRecords(a: seq<MapRec>, b: seq<MapRec>)
    requires Vmas(a) == Vmas(b)
    ensures |a| == |b| && forall i | 0 <= i < |a| :: a[i].vma == b[i].vma
  {
    forall i | 0 <= i < |a|
      ensures |a| == |b| && a[i].vma == b[i].vma
    {
      assert Vmas(a)[i] == Vmas(b)[i];
    }
    assert |Vmas(a)| == |Vmas(b)|;
  }

  lemma SameAnchors(a: seq<MapRec>, b: seq<MapRec>, vs: seq<Vma>, brk: nat)
    requires Vmas(a) == Vmas(b) && Restorable(a, vs, brk)
    ensures Restorable(b, vs, brk)
  {
    hide Anchored;
    var hs: nat, hc: nat, ss: nat, sc: nat :|
      hs < |a| && hc < |vs| && ss < |a| && sc < |vs| && Anchored(a, Table(vs), brk, hs, hc, ss, sc);
    SameAnchor(a, b, Table(vs), brk, hs, hc, ss, sc);
  }

  lemma RestorableByRanges(a: seq<MapRec>, b: seq<MapRec>, vs: seq<Vma>, brk: nat)
    requires Vmas(a) == Vmas(b)
    ensures Restorable(a, vs, brk) <==> Restorable(b, vs, brk)
  {
    hide Restorable;
    if Restorable(a, vs, brk) { SameAnchors(a, b, vs, brk); }
    if Restorable(b, vs, brk) { SameAnchors(b, a, vs, brk); }
  }

  lemma SameAnchor(a: seq<MapRec>, b: seq<MapRec>, c: seq<MapRec>, brk: nat, hs: nat, hc: nat, ss: nat, sc: nat)
    requires Vmas(a) == Vmas(b) && Anchored(a, c, brk, hs, hc, ss, sc)
    ensures |a| == |b| && Anchored(b, c, brk, hs, hc, ss, sc)
  {
    SameRecords(a, b);
  }

  lemma SameByRanges(a: seq<MapRec>, b: seq<MapRec>)
    requires Vmas(a) == Vmas(b)
    ensures forall brk: nat :: BreakAtHeap(a, brk) ==> BreakAtHeap(b, brk)
    ensures forall content, sp: AddressSpace, vs ::
              OthersIntact(a, content, sp, vs) ==> OthersIntact(b, content, sp, vs)
  {
    hide InLayout, MapRec.Named;
    SameRecords(a, b);
    forall brk: nat | BreakAtHeap(a, brk)
      ensures BreakAtHeap(b, brk)
    {
      var h: nat :| OnlyAt(a, HEAP, h) && brk == a[h].vma.end;
      NamedByVma(a, b);
      assert OnlyAt(b, HEAP, h);
    }
    forall content: map<nat, PageData>, sp: AddressSpace, vs: seq<Vma> | OthersIntact(a, content, sp, vs)
      ensures OthersIntact(b, content, sp, vs)
    {
      forall i, p: nat | 0 <= i < |b| && !b[i].Accessible() && b[i].Holds(p)
        ensures IntactAt(b[i], content, sp, vs, p)
      {
        assert !a[i].Accessible() && a[i].Holds(p);
        assert IntactAt(a[i], content, sp, vs, p);
        SpecialByVma(a[i], b[i]);
      }
    }
  }

  lemma NamedByVma(a: seq<MapRec>, b: seq<MapRec>)
    requires |a| == |b| && forall i | 0 <= i < |a| :: a[i].vma == b[i].vma
    ensures forall i | 0 <= i < |a| :: a[i].Named(HEAP) == b[i].Named(HEAP)
  {
  }

  // ---- The loop ----

  /** What the loop keeps true between two commands: the snapshot is the one of the latest checkpoint. */
  ghost predicate Managing(tracker: Tracker, process: Process, log: seq<Event>)
    reads tracker, process, tracker.checkpointed, tracker.Tables()
  {
    && tracker.process == process && tracker.Valid()
    && (tracker.checkpointed == null <==> SnapshotOf(log, |log|) == None)
    && (tracker.checkpointed != null ==>
          var c := log[SnapshotOf(log, |log|).value];
          tracker.taken == c.to.world.space && Vmas(tracker.checkpointed.Maps()) == ShownAt(process, c))
  }

  /** The last event is the failure of command `c`, for one of the only reasons there are. */
  ghost predicate Explained(process: Process, log: seq<Event>, c: Command) {
    && log != [] && log[|log| - 1].kind == Failing
    && var e, snapshot := log[|log| - 1], SnapshotOf(log, |log| - 1);
       match c
       case CheckpointMe =>
         var sp := Cleared(e.from.world.space);
         !Capturable(Visible(process.kernel(e.from.time, sp)), sp)
       case DiffMe => snapshot == None
       case RestoreMe =>
         || snapshot == None || !CanBeBroughtBack(process, log[snapshot.value], e.from)
         || e.to.refusals > e.from.refusals
       case _ => false
  }

  /** The program runs until it sends its next command. */
  method RunProgram(tracker: Tracker, process: Process, ghost log: seq<Event>) returns (ghost log': seq<Event>)
    requires Managing(tracker, process, log)
    modifies process`space, process`brk, process`clock
    ensures log' == log + [Event(Running, old(process.Now()), process.Now())] && Ran(process, log'[|log|])
    ensures Managing(tracker, process, log')
  {
    hide Snapshot, Same, Describes, Process.Honest, Anonymous, Tracked, TakenFrom, Visible;
    ghost var before := process.Now();
    process.Run();
    ghost var e := Event(Running, before, process.Now());
    SnapshotPrefix(log, e, |log|);
    log' := log + [e];
  }

  method AnswerCheckpoint(tracker: Tracker, process: Process, ghost log: seq<Event>) returns (ok: bool,
          ghost log': seq<Event>)
    requires Managing(tracker, process, log)
    modifies tracker`checkpointed, tracker`taken, process`space, process`base, process`clock
    ensures log' == log + [Event(if ok then Checkpointing else Failing, old(process.Now()), process.Now())]
    ensures ok ==> Snapshotted(process, log'[|log|])
    ensures ok ==> Managing(tracker, process, log') && fresh(tracker.checkpointed) && fresh(tracker.Tables())
    ensures !ok ==> Explained(process, log', CheckpointMe)
  {
    hide Snapshot, Same, Describes, Process.Honest, Anonymous, Tracked, TakenFrom, Visible, Capturable, Cleared;
    ghost var before := process.Now();
    ok := tracker.Checkpoint();
    ghost var e := Event(if ok then Checkpointing else Failing, before, process.Now());
    ClearedContents(before.world.space);
    SnapshotPrefix(log, e, |log|);
    log' := log + [e];
  }

  method AnswerRestore(tracker: Tracker, process: Process, ghost log: seq<Event>) returns (ok: bool,
          ghost log': seq<Event>)
    requires Managing(tracker, process, log) && tracker.checkpointed != null
    requires Restorable(tracker.checkpointed.Maps(), Visible(process.kernel(process.clock, process.space)), process.brk)
    modifies tracker`current, process`space, process`brk, process`base, process`clock, process`refusals,
        tracker.checkpointed.maps
    ensures log' == log + [Event(if ok then Restoring else Failing, old(process.Now()), process.Now())]
    ensures SnapshotOf(log, |log|).Some?
    ensures ok ==> BroughtBack(process, log[SnapshotOf(log, |log|).value], log'[|log|])
    ensures ok ==> Managing(tracker, process, log')
    ensures !ok ==> Explained(process, log', RestoreMe)
  {
    hide Snapshot, Same, Describes, Anonymous, Tracked, Restorable, Visible, Restored, SameProcess, TakenFrom,
      OthersIntact, ContentsCanBeRestored, BreakAtHeap, Countable, FitUpTo, Process.Honest, Contents, Cleared;
    ghost var before, ms := process.Now(), tracker.checkpointed.Maps();
    ghost var c := log[SnapshotOf(log, |log|).value];
    SnapshotDescribed(tracker);
    SameByRanges(ms, Table(ShownAt(process, c)));
    SameByRanges(Table(ShownAt(process, c)), ms);
    RestorableByRanges(ms, Table(ShownAt(process, c)), Visible(process.kernel(process.clock, process.space)),
        process.brk);
    ok := tracker.RestoreProcessSd();
    ghost var e := Event(if ok then Restoring else Failing, before, process.Now());
    if ok { RestoredIsSame(ms, tracker.taken, process.space); }
    SnapshotPrefix(log, e, |log|);
    log' := log + [e];
  }

  lemma SnapshotDescribed(tracker: Tracker)
    requires tracker.Valid() && tracker.checkpointed != null
    ensures Describes(Vmas(tracker.checkpointed.Maps()), tracker.taken)
  {
  }

  /** Compares the state of the process with the snapshot; nothing is answered but an acknowledgement. */
  method AnswerDiff(tracker: Tracker, process: Process, ghost log: seq<Event>)
    requires Managing(tracker, process, log) && tracker.checkpointed != null
    modifies tracker`current, process`clock
    ensures Managing(tracker, process, log) && Flows(old(process.Now()), process.Now())
  {
    hide Same, Tracked, Anonymous, Describes, Snapshot, Collect, TakenFrom, Visible, Process.Honest;
    var result;
    tracker.current, result := CaptureProcessState(process, false);
    SnapshotSorted(tracker.checkpointed.Maps(), tracker.checkpointed.pages[..], tracker.checkpointed.wmem[..],
                   Contents(tracker.taken));
    DescribesSorted(tracker.current.Maps(), process.space);
    var d, _ := DiffProcessMaps(tracker.checkpointed, tracker.current);
  }

  /** `replies` have been given and `kinds` have happened; `rest` is what is still to come. */
  ghost predicate Answering(whole: Transcript, replies: seq<string>, kinds: seq<EventKind>, rest: Transcript) {
    whole == Transcript(replies + rest.replies, rest.outcome, rest.restores, kinds + rest.kinds)
  }

  lemma Answered(whole: Transcript, replies: seq<string>, kinds: seq<EventKind>, rest: Transcript,
                 first: seq<string>, stretches: seq<EventKind>, next: Transcript)
    requires Answering(whole, replies, kinds, rest) && rest == next.After(first, stretches)
    ensures Answering(whole, replies + first, kinds + stretches, next)
  {
    assert replies + (first + next.replies) == (replies + first) + next.replies;
    assert kinds + (stretches + next.kinds) == (kinds + stretches) + next.kinds;
  }

  /** What the loop remembers besides the process. */
  datatype Console = Console(revived: nat, scratch: Option<string>)

  /** The transcript from line `i` on. */
  function Rest(lines: seq<string>, i: nat, keepalive: int, c: Console): Transcript {
    if i <= |lines| then Replies(lines[i..], c.revived, keepalive, c.scratch)
    else Transcript([], Finished, c.revived, [])
  }

  lemma RestStep(lines: seq<string>, i: nat, keepalive: int, c: Console)
    requires i < |lines|
    ensures var rest := Rest(lines, i, keepalive, c);
      match Parse(lines[i])
      case RestoreMe =>
        if c.revived == keepalive - 1 then rest == Transcript([], Killed, c.revived, [Running])
        else rest == Rest(lines, i + 1, keepalive, c.(revived := c.revived + 1)).After([ACK], [Running, Restoring])
      case SaveForMe =>
        if i + 1 < |lines| then
          rest == Rest(lines, i + 2, keepalive, c.(scratch := Some(lines[i + 1]))).After([ACK], [Running])
        else rest == Rest(lines, i + 1, keepalive, c).After([ACK], [Running])
      case GiveBackMe =>
        if c.scratch.Some? then rest == Rest(lines, i + 1, keepalive, c).After([c.scratch.value], [Running])
        else rest == Transcript([], Starved, c.revived, [Running])
      case CheckpointMe => rest == Rest(lines, i + 1, keepalive, c).After([ACK], [Running, Checkpointing])
      case DetachIt => rest == Rest(lines, i + 1, keepalive, c).After([], [Running])
      case ContIt => rest == Rest(lines, i + 1, keepalive, c).After([], [Running])
      case Unknown => rest == Rest(lines, i + 1, keepalive, c).After([], [Running])
      case _ => rest == Rest(lines, i + 1, keepalive, c).After([ACK], [Running])
  {
    hide Parse;
    assert lines[i..][0] == lines[i] && lines[i..][1..] == lines[i + 1..];
    if i + 1 < |lines| { assert lines[i..][2..] == lines[i + 2..] && lines[i..][1] == lines[i + 1]; }
  }

  /** Everything the loop knows at its head. */
  ghost predicate AtPrompt(tracker: Tracker, process: Process, start: Moment, log: seq<Event>, lines: seq<string>,
                           i: nat, keepalive: int, c: Console, replies: seq<string>)
    reads tracker, process, tracker.checkpointed, tracker.Tables()
  {
    && Managing(tracker, process, log) && History(process, start, log, process.Now())
    && Answering(Replies(lines, 0, keepalive, None), replies, Kinds(log), Rest(lines, i, keepalive, c))
  }

  /**
   The run went as the lines before line `i` say; then the program ran once more, and the command on
   line `i` failed.
   */
  ghost predicate FailedAt(lines: seq<string>, keepalive: int, replies: seq<string>, kinds: seq<EventKind>, i: nat,
          c: Console) {
    && i < |lines| && 2 <= |kinds| && kinds[|kinds| - 2..] == [Running, Failing]
    && Answering(Replies(lines, 0, keepalive, None), replies, kinds[..|kinds| - 2], Rest(lines, i, keepalive, c))
  }

  lemma FailsAt(lines: seq<string>, keepalive: int, replies: seq<string>, kinds: seq<EventKind>, i: nat, c: Console)
    requires i < |lines| && Answering(Replies(lines, 0, keepalive, None), replies, kinds, Rest(lines, i, keepalive, c))
    ensures FailedAt(lines, keepalive, replies, kinds + [Running] + [Failing], i, c)
  {
    var all := kinds + [Running] + [Failing];
    assert all[|all| - 2..] == [Running, Failing] && all[..|all| - 2] == kinds;
  }

  /** The command fails before anything is done. */
  lemma FailsAtOnce(process: Process, start: Moment, log: seq<Event>, now: Moment)
    requires History(process, start, log, now)
    ensures var log' := log + [Event(Failing, now, now)];
      History(process, start, log', now) && Kinds(log') == Kinds(log) + [Failing]
      && SnapshotOf(log', |log|) == SnapshotOf(log, |log|)
  {
    hide History, SnapshotOf;
    FlowsOn(now);
    SnapshotPrefix(log, Event(Failing, now, now), |log|);
    Extend(process, start, log, now, Event(Failing, now, now));
  }

  lemma NoSnapshotYet(tracker: Tracker, process: Process, log: seq<Event>)
    requires Managing(tracker, process, log) && tracker.checkpointed == null
    ensures SnapshotOf(log, |log|) == None
  {
  }

  lemma LayoutIsLost(tracker: Tracker, process: Process, log: seq<Event>)
    requires Managing(tracker, process, log) && tracker.checkpointed != null
    requires !Restorable(tracker.checkpointed.Maps(), Visible(process.kernel(process.clock, process.space)),
        process.brk)
    ensures SnapshotOf(log, |log|).Some?
    ensures !CanBeBroughtBack(process, log[SnapshotOf(log, |log|).value], process.Now())
  {
    hide Restorable, Visible, ContentsCanBeRestored;
    var ms, shown := tracker.checkpointed.Maps(), Table(ShownAt(process, log[SnapshotOf(log, |log|).value]));
    var vs := Visible(process.kernel(process.clock, process.space));
    RestorableByRanges(ms, shown, vs, process.brk);
  }

  lemma TablesOf(tracker: Tracker, process: Process, log: seq<Event>)
    requires Managing(tracker, process, log)
    ensures tracker.process == process && process.Honest()
    ensures tracker.checkpointed != null ==> tracker.checkpointed.Valid()
  {
  }

  /**
   Serves one command, after the program has run. It leaves the loop when the program is killed, or
   when it cannot go on. Whatever it does to the process is in the events it adds to the history.
   */
  method ServeCommand(tracker: Tracker, process: Process, lines: seq<string>, i: nat, keepalive: int, c: Console,
                      replies: seq<string>, ghost start: Moment, ghost log: seq<Event>)
    returns (go: bool, i': nat, c': Console, replies': seq<string>, outcome: Outcome, ghost log': seq<Event>)
    requires i < |lines| && AtPrompt(tracker, process, start, log, lines, i, keepalive, c, replies)
    modifies tracker, process, if tracker.checkpointed == null then {} else {tracker.checkpointed.maps}
    ensures |log| < |log'| && log == log'[..|log|] && log'[|log|].from == old(process.Now())
    ensures History(process, start, log', process.Now())
    ensures go ==> i < i' <= |lines| && AtPrompt(tracker, process, start, log', lines, i', keepalive, c', replies')
    ensures go && tracker.checkpointed != old(tracker.checkpointed) ==>
      tracker.checkpointed != null && fresh(tracker.checkpointed) && fresh(tracker.Tables())
    ensures go && tracker.checkpointed == old(tracker.checkpointed) ==> tracker.Tables() == old(tracker.Tables())
    ensures !go ==> outcome != Finished && replies' == replies && c' == c
    ensures !go && outcome == Failed ==>
      Kinds(log') == Kinds(log) + [Running] + [Failing] && Explained(process, log', Parse(lines[i]))
    ensures !go && outcome != Failed ==>
      Transcript(replies', outcome, c'.revived, Kinds(log')) == Replies(lines, 0, keepalive, None)
  {
    hide Managing, History, Process.Honest, Restorable, Visible, Parse, Replies, Rest, SnapshotOf, Kinds, Flows, Ran,
      Snapshotted, BroughtBack, CanBeBroughtBack;
    go, i', c', replies', outcome := true, i + 1, c, replies, Failed;
    ghost var whole, rest := Replies(lines, 0, keepalive, None), Rest(lines, i, keepalive, c);
    ghost var now := process.Now();
    ghost var log1 := RunProgram(tracker, process, log);
    FlowsOn(now);
    Extend(process, start, log, now, log1[|log|]);
    RestStep(lines, i, keepalive, c);
    TablesOf(tracker, process, log1);
    now, log' := process.Now(), log1;
    ghost var kinds := Kinds(log1);
    match Parse(lines[i]) {
      case CheckpointMe =>
        go, log' := AnswerCheckpoint(tracker, process, log1);
        FlowsOn(now);
        Extend(process, start, log1, now, log'[|log1|]);
        if !go { return; }
        AnsweredTwo(whole, replies, Kinds(log), rest, [ACK], Checkpointing, Rest(lines, i', keepalive, c'));
        replies' := replies + [ACK];
      case DiffMe =>
        if tracker.checkpointed == null {
          NoSnapshotYet(tracker, process, log1);
          FailsAtOnce(process, start, log1, now);
          go, log' := false, log1 + [Event(Failing, now, now)];
          return;
        }
        AnswerDiff(tracker, process, log1);
        HistoryGoesOn(process, start, log1, now, process.Now());
        Answered(whole, replies, Kinds(log), rest, [ACK], [Running], Rest(lines, i', keepalive, c'));
        replies' := replies + [ACK];
      case RestoreMe =>
        if c.revived == keepalive - 1 {
          go, outcome := false, Killed;
          assert replies + [] == replies;
          return;
        }
        if tracker.checkpointed == null {
          NoSnapshotYet(tracker, process, log1);
          FailsAtOnce(process, start, log1, now);
          go, log' := false, log1 + [Event(Failing, now, now)];
          return;
        }
        if !Restorable(tracker.checkpointed.maps[..tracker.checkpointed.mapsCount],
                       Visible(process.kernel(process.clock, process.space)), process.brk) {
          LayoutIsLost(tracker, process, log1);
          FailsAtOnce(process, start, log1, now);
          go, log' := false, log1 + [Event(Failing, now, now)];
          return;
        }
        go, log' := AnswerRestore(tracker, process, log1);
        FlowsOn(now);
        Extend(process, start, log1, now, log'[|log1|]);
        if !go { return; }
        c' := c.(revived := c.revived + 1);
        AnsweredTwo(whole, replies, Kinds(log), rest, [ACK], Restoring, Rest(lines, i', keepalive, c'));
        replies' := replies + [ACK];
      case SaveForMe =>
        if i + 1 < |lines| { i', c' := i + 2, c.(scratch := Some(lines[i + 1])); }
        Answered(whole, replies, Kinds(log), rest, [ACK], [Running], Rest(lines, i', keepalive, c'));
        replies' := replies + [ACK];
      case GiveBackMe =>
        if c.scratch == None {
          go, outcome := false, Starved;
          assert replies + [] == replies;
          return;
        }
        Answered(whole, replies, Kinds(log), rest, [c.scratch.value], [Running], Rest(lines, i', keepalive, c'));
        replies' := replies + [c.scratch.value];
      case DumpStatsMe =>
        Answered(whole, replies, Kinds(log), rest, [ACK], [Running], Rest(lines, i', keepalive, c'));
        replies' := replies + [ACK];
      case NopMe =>
        Answered(whole, replies, Kinds(log), rest, [ACK], [Running], Rest(lines, i', keepalive, c'));
        replies' := replies + [ACK];
      case _ =>
        Answered(whole, replies, Kinds(log), rest, [], [Running], Rest(lines, i', keepalive, c'));
        assert replies + [] == replies;
    }
  }

  lemma AnsweredTwo(whole: Transcript, replies: seq<string>, kinds: seq<EventKind>, rest: Transcript,
                    first: seq<string>, kind: EventKind, next: Transcript)
    requires Answering(whole, replies, kinds, rest) && rest == next.After(first, [Running, kind])
    ensures Answering(whole, replies + first, kinds + [Running] + [kind], next)
  {
    Answered(whole, replies, kinds, rest, first, [Running, kind], next);
    assert kinds + [Running, kind] == kinds + [Running] + [kind];
  }

  lemma HistoryGoesOn(process: Process, start: Moment, log: seq<Event>, end: Moment, later: Moment)
    requires History(process, start, log, end) && Flows(end, later)
    ensures History(process, start, log, later)
  {
    LaterEnd(start, log, end, later);
  }

  /**
   The whole run of the manager over any list of command lines. The history begins and ends with the
   process as it is, and every event in it is what its kind says; requests are isolated. Unless the run
   fails, the replies and the kinds of the events are exactly those of the protocol. If it fails, they
   are up to the line that fails, for one of the reasons that `Explained` lists.
   */
  method HandleStdcmd(process: Process, lines: seq<string>, keepalive: int)
    returns (replies: seq<string>, outcome: Outcome, restores: nat, ghost log: seq<Event>, ghost served: nat,
             ghost console: Console)
    requires process.Valid()
    modifies process
    ensures History(process, old(process.Now()), log, process.Now()) && Isolated(log)
    ensures outcome != Failed ==>
        Transcript(replies, outcome, restores, Kinds(log)) == Replies(lines, 0, keepalive, None)
    ensures outcome == Failed ==>
      FailedAt(lines, keepalive, replies, Kinds(log), served, console) && restores == console.revived
    ensures outcome == Failed ==> served < |lines| && Explained(process, log, Parse(lines[served]))
  {
    hide Managing, History, Process.Honest, Anonymous, Tracked, Replies, Explained, FailedAt, Isolated, Kinds, Parse;
    ghost var start := process.Now();
    var tracker := new Tracker(process);
    var i: nat, c := 0, Console(0, None);
    replies, log := [], [];
    LoopStart(tracker, process, lines, keepalive);
    while i < |lines|
      invariant i <= |lines| && fresh(tracker) &&
          AtPrompt(tracker, process, start, log, lines, i, keepalive, c, replies)
      invariant tracker.checkpointed != null ==> fresh(tracker.checkpointed) && fresh(tracker.Tables())
    {
      served, console := i, c;
      ghost var before := log;
      var go;
      go, i, c, replies, outcome, log := ServeCommand(tracker, process, lines, i, keepalive, c, replies, start, log);
      if !go {
        restores := c.revived;
        HistoryIsIsolated(process, start, log, process.Now());
        if outcome == Failed { FailsAt(lines, keepalive, replies, Kinds(before), served, console); }
        return;
      }
    }
    outcome, restores, served, console := Finished, c.revived, i, c;
    LoopEnd(tracker, process, start, log, lines, keepalive, c, replies);
    HistoryIsIsolated(process, start, log, process.Now());
  }

  lemma LoopStart(tracker: Tracker, process: Process, lines: seq<string>, keepalive: int)
    requires tracker.process == process && tracker.Valid() && tracker.checkpointed == null
    ensures AtPrompt(tracker, process, process.Now(), [], lines, 0, keepalive, Console(0, None), [])
  {
    hide Replies;
    assert lines[0..] == lines;
    var whole := Replies(lines, 0, keepalive, None);
    assert [] + whole.replies == whole.replies && Kinds([]) + whole.kinds == whole.kinds;
  }

  lemma LoopEnd(tracker: Tracker, process: Process, start: Moment, log: seq<Event>, lines: seq<string>, keepalive: int,
                c: Console, replies: seq<string>)
    requires AtPrompt(tracker, process, start, log, lines, |lines|, keepalive, c, replies)
    ensures Transcript(replies, Finished, c.revived, Kinds(log)) == Replies(lines, 0, keepalive, None)
  {
    hide History, Managing, Kinds;
    assert lines[|lines|..] == [];
    assert replies + [] == replies && Kinds(log) + [] == Kinds(log);
  }

  /** Data saved with the manager is given back, whatever was asked in between, unless other data was saved over it. */
  lemma {:induction false} SavedIsGivenBack(mid: seq<string>, revived: nat, keepalive: int, data: string)
    requires forall k | 0 <= k < |mid| :: !("save_for.me" <= mid[k])
    requires Replies(mid + ["give_back.me\n"], revived, keepalive, Some(data)).outcome == Finished
    ensures var replies := Replies(mid + ["give_back.me\n"], revived, keepalive, Some(data)).replies;
      replies != [] && replies[|replies| - 1] == data
    decreases |mid|
  {
    var lines := mid + ["give_back.me\n"];
    assert "give_back.me" <= "give_back.me\n";
    ParseReads(lines[0]);
    hide Parse;
    if mid != [] {
      var rest := mid[1..];
      assert lines[1..] == rest + ["give_back.me\n"] && lines[0] == mid[0];
      forall k | 0 <= k < |rest|
        ensures !("save_for.me" <= rest[k])
      {
        assert rest[k] == mid[k + 1];
      }
      SavedIsGivenBack(rest, if "restore.me" <= mid[0] then revived + 1 else revived, keepalive, data);
    } else {
      assert lines == ["give_back.me\n"] && lines[1..] == [];
    }
  }
}

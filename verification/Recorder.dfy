/** The packet recorder of plank-probe-video-record: a table of eight decoder
    contexts, one file per decoder lifetime and one byte budget for all of them. */
module Recorder {
  import opened Bytes

  const MAX_RECORDS: nat := 8
  const MAX_PACKET: nat := 16 * 1024 * 1024
  const MAX_BYTES: nat := 4 * 1024 * 1024 * 1024
  const MAX_SECONDS: nat := 600
  const MAGIC: seq<byte> := [0x50, 0x4c, 0x41, 0x4e, 0x4b, 0x56, 0x31, 0x0a]

  /** A packet the decoder accepted: flags are the 32 bits of an int. */
  datatype Packet = Packet(flags: nat, data: seq<byte>)

  /** The filter of avcodec_send_packet, and the width of its fields. */
  predicate Recordable(p: Packet) {
    1 <= |p.data| <= MAX_PACKET && p.flags < 0x1_0000_0000
  }

  /** Length and flags, little-endian, then the exact packet bytes. */
  function Record(p: Packet): seq<byte> {
    ToLittleEndian(|p.data|, 4) + ToLittleEndian(p.flags, 4) + p.data
  }

  function Body(packets: seq<Packet>): seq<byte> {
    if packets == [] then [] else Record(packets[0]) + Body(packets[1..])
  }

  lemma {:induction false} BodySnoc(packets: seq<Packet>, p: Packet)
    ensures Body(packets + [p]) == Body(packets) + Record(p)
  {
    if packets == [] {
      assert Body([p]) == Record(p) + Body([]);
    } else {
      assert (packets + [p])[1..] == packets[1..] + [p];
      BodySnoc(packets[1..], p);
    }
  }

  /** The file that holds one decoder lifetime. */
  function FileOf(packets: seq<Packet>): seq<byte> {
    MAGIC + Body(packets)
  }

  // ----------------------------------------------------------------- the recorder

  /** `context` 0 is the null pointer, `file` -1 a closed descriptor. */
  datatype Entry = Entry(context: nat, file: int)

  datatype State = State(table: seq<Entry>, files: seq<seq<byte>>, written: nat, stopped: bool)

  const NONE := Entry(0, -1)
  const START := State([NONE, NONE, NONE, NONE, NONE, NONE, NONE, NONE], [], 0, false)

  /** A call of the preloaded library. `elapsed` is the recording time in seconds,
      `opens` whether the file can be created, and `room` how many bytes the file
      system accepts during this call before a write fails. */
  datatype Event = Submit(context: nat, packet: Packet, elapsed: nat, opens: bool, room: nat) | Free(context: nat)

  predicate Possible(e: Event) {
    e.context != 0 && (e.Submit? ==> Recordable(e.packet))
  }

  /** The first entry of the table for this context, |table| if there is none. */
  function Find(table: seq<Entry>, context: nat): (i: nat)
    ensures i <= |table|
    ensures i < |table| ==> table[i].context == context
    ensures forall k | 0 <= k < i :: table[k].context != context
  {
    if table == [] then 0
    else if table[0].context == context then 0
    else 1 + Find(table[1..], context)
  }

  function CloseAll(table: seq<Entry>): (t: seq<Entry>) {
    seq(|table|, i requires 0 <= i < |table| => Entry(table[i].context, -1))
  }

  function Forget(table: seq<Entry>, context: nat): seq<Entry> {
    seq(|table|, i requires 0 <= i < |table| => if table[i].context == context then Entry(0, -1) else table[i])
  }

  function Stopped(s: State): State {
    s.(table := CloseAll(s.table), stopped := true)
  }

  /** Appending one packet; a write to a closed descriptor fails. */
  function Appended(s: State, i: nat, p: Packet, room: nat): State
    requires i < |s.table|
  {
    var file := s.table[i].file;
    if !(0 <= file < |s.files|) then Stopped(s) else
    var t := s.(files := s.files[file := s.files[file] + Took(Record(p), room)]);
    if room < |Record(p)| then Stopped(t) else t.(written := s.written + |Record(p)|)
  }

  function Submitted(s: State, e: Event): State
    requires e.Submit? && |s.table| == MAX_RECORDS
  {
    if s.stopped then s
    else if e.elapsed >= MAX_SECONDS || s.written + |e.packet.data| + 16 > MAX_BYTES then Stopped(s)
    else
      var i := Find(s.table, e.context);
      if i < |s.table| then Appended(s, i, e.packet, e.room)
      else
        var j := Find(s.table, 0);
        if j == |s.table| then Stopped(s)
        else if !e.opens then Stopped(s)
        else if e.room < |MAGIC| then Stopped(s.(files := s.files + [MAGIC[..e.room]]))
        else
          var t := State(s.table[j := Entry(e.context, |s.files|)], s.files + [MAGIC], s.written + |MAGIC|, false);
          Appended(t, j, e.packet, e.room - |MAGIC|)
  }

  function Freed(s: State, context: nat): State {
    s.(table := Forget(s.table, context))
  }

  // ------------------------------------------------------- the reference recorder

  /** Without table, budget or failures: one list of packets per decoder lifetime,
      in the order in which the lifetimes began, and who is alive. */
  datatype Reference = Reference(live: map<nat, nat>, packets: seq<seq<Packet>>)

  ghost function Expected(events: seq<Event>): (r: Reference)
    ensures forall c | c in r.live :: r.live[c] < |r.packets|
  {
    if events == [] then Reference(map[], [])
    else
      var r, e := Expected(events[..|events| - 1]), events[|events| - 1];
      match e
      case Submit(c, p, _, _, _) =>
        if c in r.live then r.(packets := r.packets[r.live[c] := r.packets[r.live[c]] + [p]])
        else Reference(r.live[c := |r.packets|], r.packets + [[p]])
      case Free(c) => r.(live := r.live - {c})
  }

  ghost function Total(files: seq<seq<byte>>): nat {
    if files == [] then 0 else Total(files[..|files| - 1]) + |files[|files| - 1]|
  }

  lemma {:induction false} TotalUpdate(files: seq<seq<byte>>, k: nat, more: seq<byte>)
    requires k < |files|
    ensures Total(files[k := files[k] + more]) == Total(files) + |more|
  {
    var last := |files| - 1;
    if k == last {
      assert files[k := files[k] + more][..last] == files[..last];
    } else {
      TotalUpdate(files[..last], k, more);
      assert files[k := files[k] + more][..last] == files[..last][k := files[k] + more];
    }
  }

  lemma {:induction false} TotalSnoc(files: seq<seq<byte>>, file: seq<byte>)
    ensures Total(files + [file]) == Total(files) + |file|
  {
    assert (files + [file])[..|files|] == files;
  }

  /** The table lists exactly the live contexts, each once, with its file. */
  ghost predicate TableInv(table: seq<Entry>, live: map<nat, nat>) {
    && |table| == MAX_RECORDS && 0 !in live
    && (forall k | 0 <= k < |table| && table[k].context != 0 ::
          table[k].context in live && table[k].file == live[table[k].context])
    && (forall j, k | 0 <= j < k < |table| && table[j].context != 0 :: table[j].context != table[k].context)
    && (forall c | c in live :: Find(table, c) < |table|)
  }

  /** Distinct lifetimes go to distinct files. */
  ghost predicate LiveInv(live: map<nat, nat>, files: nat) {
    && (forall c | c in live :: live[c] < files)
    && (forall c, d | c in live && d in live && live[c] == live[d] :: c == d)
  }

  /** While recording, the files are the rendered lifetimes and the budget is exact. */
  ghost predicate Recording(s: State, r: Reference) {
    && TableInv(s.table, r.live) && LiveInv(r.live, |s.files|)
    && |s.files| == |r.packets|
    && (forall k | 0 <= k < |s.files| :: s.files[k] == FileOf(r.packets[k]))
    && s.written == Total(s.files) <= MAX_BYTES
  }

  /** After a stop, every file is still a beginning of its lifetime. */
  ghost predicate Truncated(s: State, r: Reference) {
    && |s.table| == MAX_RECORDS && |s.files| <= |r.packets|
    && (forall k | 0 <= k < |s.files| :: s.files[k] <= FileOf(r.packets[k]))
    && Total(s.files) <= MAX_BYTES
  }

  ghost predicate Inv(s: State, r: Reference) {
    if s.stopped then Truncated(s, r) else Recording(s, r)
  }

  lemma {:induction false} RecordSize(p: Packet)
    ensures |Record(p)| == 8 + |p.data|
  {
  }

  lemma {:induction false} LongerLifetime(packets: seq<Packet>, p: Packet, file: seq<byte>)
    ensures FileOf(packets + [p]) == FileOf(packets) + Record(p)
    ensures file <= FileOf(packets) ==> file <= FileOf(packets + [p])
  {
    BodySnoc(packets, p);
    assert FileOf(packets + [p]) == FileOf(packets) + Record(p);
  }

  lemma {:induction false} AppendedInv(s: State, r: Reference, i: nat, p: Packet, room: nat)
    requires Recording(s, r) && !s.stopped && i < |s.table| && s.table[i].context != 0
    requires s.written + |Record(p)| <= MAX_BYTES
    ensures 0 <= s.table[i].file < |s.files|
    ensures var k := r.live[s.table[i].context];
            Inv(Appended(s, i, p, room), r.(packets := r.packets[k := r.packets[k] + [p]]))
  {
    var k := r.live[s.table[i].context];
    LongerLifetime(r.packets[k], p, []);
    var took := Took(Record(p), room);
    hide FileOf, Record, TableInv;
    TotalUpdate(s.files, k, took);
  }

  lemma {:induction false} FindUpdated(table: seq<Entry>, j: nat, e: Entry, c: nat)
    requires j < |table| && table[j].context == 0 && c != 0
    ensures Find(table[j := e], c) < |table| <==> c == e.context || Find(table, c) < |table|
  {
    var t := table[j := e];
    if Find(table, c) < |table| {
      assert t[Find(table, c)].context == c;
    }
    assert t[j].context == e.context;
    if Find(t, c) < |t| && Find(t, c) != j {
      assert table[Find(t, c)].context == c;
    }
  }

  lemma {:induction false} NewEntry(table: seq<Entry>, live: map<nat, nat>, c: nat, j: nat, file: nat)
    requires TableInv(table, live) && c != 0 && c !in live && j < |table| && table[j].context == 0
    ensures TableInv(table[j := Entry(c, file)], live[c := file])
  {
    forall d | d == c || d in live ensures Find(table[j := Entry(c, file)], d) < |table| {
      FindUpdated(table, j, Entry(c, file), d);
    }
  }

  lemma {:induction false} OpenedInv(s: State, r: Reference, c: nat, j: nat)
    requires Recording(s, r) && c != 0 && c !in r.live && j < |s.table| && s.table[j].context == 0
    requires s.written + |MAGIC| <= MAX_BYTES
    ensures Recording(State(s.table[j := Entry(c, |s.files|)], s.files + [MAGIC], s.written + |MAGIC|, false),
                      Reference(r.live[c := |r.packets|], r.packets + [[]]))
  {
    NewEntry(s.table, r.live, c, j, |s.files|);
    TotalSnoc(s.files, MAGIC);
    hide TableInv;
  }

  /** A stopped recorder stays a beginning of the reference, which only grows. */
  lemma {:induction false} TruncatedGrows(s: State, r: Reference, e: Event)
    requires Inv(s, r) && (forall c | c in r.live :: r.live[c] < |r.packets|)
    requires e.Submit?
    ensures Truncated(Stopped(s), Grown(r, e))
  {
    if e.context in r.live {
      var k := r.live[e.context];
      if k < |s.files| {
        LongerLifetime(r.packets[k], e.packet, s.files[k]);
      }
    }
  }

  lemma {:induction false} FindWorks(s: State, r: Reference, c: nat)
    requires TableInv(s.table, r.live) && c != 0
    ensures Find(s.table, c) < |s.table| <==> c in r.live
  {
  }

  ghost function Grown(r: Reference, e: Event): Reference
    requires e.Submit? && forall c | c in r.live :: r.live[c] < |r.packets|
  {
    if e.context in r.live
    then r.(packets := r.packets[r.live[e.context] := r.packets[r.live[e.context]] + [e.packet]])
    else Reference(r.live[e.context := |r.packets|], r.packets + [[e.packet]])
  }

  lemma {:induction false} RecordedInv(s: State, r: Reference, e: Event)
    requires e.Submit? && Possible(e) && Recording(s, r) && !s.stopped
    requires forall c | c in r.live :: r.live[c] < |r.packets|
    requires s.written + |e.packet.data| + 16 <= MAX_BYTES && Truncated(Stopped(s), Grown(r, e))
    ensures Inv(Submitted(s, e), Grown(r, e)) || e.elapsed >= MAX_SECONDS
  {
    if e.elapsed < MAX_SECONDS {
      RecordSize(e.packet);
      FindWorks(s, r, e.context);
      Branches(s, e);
      var i, j := Find(s.table, e.context), Find(s.table, 0);
      assert |s.table| == MAX_RECORDS;
      assert i < |s.table| ==> s.table[i].context in r.live;
      hide Recording, Truncated, Appended, Record, CloseAll, MAGIC, TableInv, Submitted;
      if i < |s.table| {
        AppendedInv(s, r, i, e.packet, e.room);
      } else if j < |s.table| && e.opens && e.room < |MAGIC| {
        PartialMagic(s, r, e, e.room);
      } else if j < |s.table| && e.opens {
        NewLifetimeInv(s, r, e, j);
      }
    }
  }

  lemma {:induction false} Branches(s: State, e: Event)
    requires e.Submit? && |s.table| == MAX_RECORDS && !s.stopped
    requires e.elapsed < MAX_SECONDS && s.written + |e.packet.data| + 16 <= MAX_BYTES
    ensures var i, j := Find(s.table, e.context), Find(s.table, 0);
            Submitted(s, e) ==
              if i < |s.table| then Appended(s, i, e.packet, e.room)
              else if j == |s.table| || !e.opens then Stopped(s)
              else if e.room < |MAGIC| then Stopped(s.(files := s.files + [MAGIC[..e.room]]))
              else Appended(State(s.table[j := Entry(e.context, |s.files|)], s.files + [MAGIC], s.written + |MAGIC|,
                                  false),
                            j, e.packet, e.room - |MAGIC|)
  {
    hide Appended, Find, Stopped;
  }

  lemma {:induction false} SubmittedInv(s: State, events: seq<Event>, e: Event)
    requires Inv(s, Expected(events)) && e.Submit? && Possible(e)
    ensures Inv(Submitted(s, e), Expected(events + [e]))
  {
    var r, next := Expected(events), Expected(events + [e]);
    assert (events + [e])[..|events|] == events;
    assert next == Grown(r, e);
    TruncatedGrows(s, r, e);
    hide Expected, Recording, Grown, Appended, Possible;
    if s.stopped {
      assert s.files == Stopped(s).files && s.table == Submitted(s, e).table;
    } else if e.elapsed < MAX_SECONDS && s.written + |e.packet.data| + 16 <= MAX_BYTES {
      RecordedInv(s, r, e);
      hide Truncated, Submitted;
    } else {
      hide Truncated;
    }
  }

  lemma {:induction false} NewLifetimeInv(s: State, r: Reference, e: Event, j: nat)
    requires Recording(s, r) && !s.stopped && e.Submit? && e.context != 0 && e.context !in r.live
    requires j < |s.table| && s.table[j].context == 0 && e.room >= |MAGIC|
    requires s.written + |Record(e.packet)| + 8 <= MAX_BYTES
    ensures Inv(Appended(State(s.table[j := Entry(e.context, |s.files|)], s.files + [MAGIC], s.written + |MAGIC|,
                               false),
                         j, e.packet, e.room - |MAGIC|),
                Reference(r.live[e.context := |r.packets|], r.packets + [[e.packet]]))
  {
    OpenedInv(s, r, e.context, j);
    hide Recording, Record;
    var t := State(s.table[j := Entry(e.context, |s.files|)], s.files + [MAGIC], s.written + |MAGIC|, false);
    var begun := Reference(r.live[e.context := |r.packets|], r.packets + [[]]);
    AppendedInv(t, begun, j, e.packet, e.room - |MAGIC|);
    assert [] + [e.packet] == [e.packet];
    assert begun.packets[|r.packets| := [e.packet]] == r.packets + [[e.packet]];
  }

  lemma {:induction false} PartialMagic(s: State, r: Reference, e: Event, room: nat)
    requires Recording(s, r) && room < |MAGIC| && s.written + |MAGIC| <= MAX_BYTES
    requires e.Submit? && e.context !in r.live
    ensures Truncated(Stopped(s.(files := s.files + [MAGIC[..room]])), Grown(r, e))
  {
    TotalSnoc(s.files, MAGIC[..room]);
  }

  lemma {:induction false} ForgottenEntry(table: seq<Entry>, live: map<nat, nat>, c: nat)
    requires TableInv(table, live) && c != 0
    ensures TableInv(Forget(table, c), live - {c})
  {
    hide Find;
    var t := Forget(table, c);
    forall d | d in live && d != c ensures Find(t, d) < |t| {
      StillFound(table, c, d);
    }
    assert forall j | 0 <= j < |t| && t[j].context != 0 :: t[j] == table[j] && t[j].context != c;
  }

  lemma {:induction false} StillFound(table: seq<Entry>, c: nat, d: nat)
    requires Find(table, d) < |table| && c != d
    ensures Find(Forget(table, c), d) < |table|
  {
    var i, t := Find(table, d), Forget(table, c);
    assert t[i].context == d;
    hide Find;
    assert Find(t, d) <= i;
  }

  lemma {:induction false} FreedInv(s: State, events: seq<Event>, c: nat)
    requires Inv(s, Expected(events)) && c != 0
    ensures Inv(Freed(s, c), Expected(events + [Free(c)]))
  {
    assert (events + [Free(c)])[..|events|] == events;
    if !s.stopped {
      ForgottenEntry(s.table, Expected(events).live, c);
    }
    hide TableInv, FileOf, Total;
  }

  // ------------------------------------------------------------------- whole runs

  ghost function After(s: State, e: Event): State
    requires |s.table| == MAX_RECORDS
  {
    match e
    case Free(c) => Freed(s, c)
    case Submit(_, _, _, _, _) => Submitted(s, e)
  }

  ghost function Run(events: seq<Event>): (s: State)
    ensures |s.table| == MAX_RECORDS
  {
    if events == [] then START else After(Run(events[..|events| - 1]), events[|events| - 1])
  }

  lemma {:induction false} RunInv(events: seq<Event>)
    requires forall k | 0 <= k < |events| :: Possible(events[k])
    ensures Inv(Run(events), Expected(events))
  {
    if events != [] {
      var before, e := events[..|events| - 1], events[|events| - 1];
      RunInv(before);
      assert events == before + [e];
      match e {
        case Free(c) => FreedInv(Run(before), before, c);
        case Submit(_, _, _, _, _) => SubmittedInv(Run(before), before, e);
      }
    }
  }

  /** As long as recording has not stopped, every file is the magic followed by the
      packets of exactly one decoder lifetime in order, and `written` is the total
      size of all files; it never exceeds 4 GiB. */
  lemma {:induction false} FilesAreLifetimes(events: seq<Event>)
    requires forall k | 0 <= k < |events| :: Possible(events[k])
    requires !Run(events).stopped
    ensures |Run(events).files| == |Expected(events).packets|
    ensures forall k | 0 <= k < |Run(events).files| :: Run(events).files[k] == FileOf(Expected(events).packets[k])
    ensures Run(events).written == Total(Run(events).files) <= MAX_BYTES
  {
    RunInv(events);
  }

  /** Whatever fails and whenever: no file ever holds anything but a beginning of its
      own lifetime, and the budget is kept. */
  lemma {:induction false} FilesAreBeginnings(events: seq<Event>)
    requires forall k | 0 <= k < |events| :: Possible(events[k])
    ensures |Run(events).files| <= |Expected(events).packets|
    ensures forall k | 0 <= k < |Run(events).files| :: Run(events).files[k] <= FileOf(Expected(events).packets[k])
    ensures Total(Run(events).files) <= MAX_BYTES
  {
    RunInv(events);
  }

  /** The descriptors that are open. */
  ghost predicate Open(table: seq<Entry>, file: int) {
    exists k | 0 <= k < |table| :: table[k].file == file && file != -1
  }

  ghost predicate NothingUnused(table: seq<Entry>) {
    forall k | 0 <= k < |table| && table[k].context == 0 :: table[k].file == -1
  }

  lemma {:induction false} EntriesInUse(events: seq<Event>)
    ensures NothingUnused(Run(events).table)
    ensures Run(events).stopped ==> forall k | 0 <= k < MAX_RECORDS :: Run(events).table[k].file == -1
    ensures forall k | 0 <= k < MAX_RECORDS :: Run(events).table[k].file >= -1
  {
    hide Find, Record, Took;
    if events != [] {
      EntriesInUse(events[..|events| - 1]);
    }
  }

  /** Descriptors do not leak: while recording, exactly the files of the contexts that
      are alive are open, and none is when recording has stopped. */
  lemma {:induction false} Descriptors(events: seq<Event>, file: int)
    requires forall k | 0 <= k < |events| :: Possible(events[k])
    ensures var live := Expected(events).live;
            Open(Run(events).table, file) <==> !Run(events).stopped && exists c | c in live :: live[c] == file
  {
    RunInv(events);
    EntriesInUse(events);
    var s, live := Run(events), Expected(events).live;
    hide Run, Expected;
    if !s.stopped {
      if c :| c in live && live[c] == file {
        var k := Find(s.table, c);
        assert s.table[k].context == c && c != 0;
        assert s.table[k].file == file && Open(s.table, file);
        assert Open(Run(events).table, file);
        assert !Run(events).stopped;
        assert c in Expected(events).live && Expected(events).live[c] == file;
      }
    }
  }

  /** Files only grow, and once recording has stopped they stay as they are. */
  lemma {:induction false} FilesGrow(events: seq<Event>, e: Event)
    requires forall k | 0 <= k < |events| :: Possible(events[k])
    ensures var before, after := Run(events).files, Run(events + [e]).files;
            && |before| <= |after| <= |before| + 1
            && (forall k | 0 <= k < |before| :: before[k] <= after[k])
            && (Run(events).stopped || e.Free? ==> after == before)
    ensures Run(events).stopped ==> Run(events + [e]).stopped
  {
    assert (events + [e])[..|events|] == events;
    hide Record, Find;
  }

  /** What a packet adds: its record, after the magic if it is the first of its lifetime,
      as far as the file system accepts it. Nothing of it when recording ends for any
      other reason. */
  lemma {:induction false} AddsWhatFits(events: seq<Event>, e: Event)
    requires forall k | 0 <= k < |events| :: Possible(events[k])
    requires Possible(e) && e.Submit? && !Run(events).stopped
    ensures var live, files := Expected(events).live, Run(events).files;
            var after := Run(events + [e]).files;
            if || e.elapsed >= MAX_SECONDS
               || Total(files) + |Record(e.packet)| + |MAGIC| > MAX_BYTES
               || (e.context !in live && (|live| == MAX_RECORDS || !e.opens))
            then after == files
            else if e.context in live then
              0 <= live[e.context] < |files|
              && after == files[live[e.context] := files[live[e.context]] + Took(Record(e.packet), e.room)]
            else after == files + [Took(MAGIC + Record(e.packet), e.room)]
  {
    var s, r := Run(events), Expected(events);
    RunInv(events);
    assert (events + [e])[..|events|] == events;
    RecordSize(e.packet);
    FindWorks(s, r, e.context);
    TableFull(s.table, r.live);
    EntryOpen(s, r, e.context);
    assert s.written == Total(s.files) && TableInv(s.table, r.live);
    hide Record, Expected, Run, Total, FileOf, Recording;
    SubmittedFiles(s, e);
    hide Submitted;
  }

  lemma {:induction false} SubmittedFiles(s: State, e: Event)
    requires e.Submit? && |s.table| == MAX_RECORDS && !s.stopped
    requires var i := Find(s.table, e.context); i < |s.table| ==> 0 <= s.table[i].file < |s.files|
    ensures var i := Find(s.table, e.context);
            Submitted(s, e).files ==
              if || e.elapsed >= MAX_SECONDS || s.written + |e.packet.data| + 16 > MAX_BYTES
                 || (i == |s.table| && (Find(s.table, 0) == |s.table| || !e.opens))
              then s.files
              else if i < |s.table| then
                s.files[s.table[i].file := s.files[s.table[i].file] + Took(Record(e.packet), e.room)]
              else s.files + [Took(MAGIC + Record(e.packet), e.room)]
  {
    hide Record, CloseAll, Find;
    if e.elapsed < MAX_SECONDS && s.written + |e.packet.data| + 16 <= MAX_BYTES {
      Branches(s, e);
      hide Submitted;
      TookTwo(MAGIC, Record(e.packet), e.room);
    }
  }

  ghost function Contexts(table: seq<Entry>): set<nat> {
    set k | 0 <= k < |table| && table[k].context != 0 :: table[k].context
  }

  lemma {:induction false} CountContexts(table: seq<Entry>)
    requires forall j, k | 0 <= j < k < |table| && table[j].context != 0 :: table[j].context != table[k].context
    ensures |Contexts(table)| <= |table|
    ensures |Contexts(table)| == |table| <==> Find(table, 0) == |table|
  {
    if table != [] {
      var rest, first := table[1..], table[0].context;
      CountContexts(rest);
      if first == 0 {
        assert Contexts(table) == Contexts(rest);
      } else {
        assert Contexts(table) == Contexts(rest) + {first} by {
          assert table == [table[0]] + rest;
        }
        assert first !in Contexts(rest);
      }
    }
  }

  /** No free entry is left exactly when eight contexts are alive. */
  lemma {:induction false} TableFull(table: seq<Entry>, live: map<nat, nat>)
    requires TableInv(table, live)
    ensures Find(table, 0) == |table| <==> |live| == MAX_RECORDS
  {
    CountContexts(table);
    assert live.Keys == Contexts(table) by {
      forall c | c in live ensures c in Contexts(table) {
        assert table[Find(table, c)].context == c && c != 0;
      }
    }
  }

  /** When recording ends: by time, by the shared budget, by a ninth live context, or
      because the file system refuses the file or some of the bytes. */
  lemma {:induction false} StopsExactly(events: seq<Event>, e: Event)
    requires forall k | 0 <= k < |events| :: Possible(events[k])
    requires Possible(e) && e.Submit? && !Run(events).stopped
    ensures var live := Expected(events).live;
            var size := |Record(e.packet)| + (if e.context in live then 0 else |MAGIC|);
            Run(events + [e]).stopped <==>
              || e.elapsed >= MAX_SECONDS
              || Total(Run(events).files) + |Record(e.packet)| + |MAGIC| > MAX_BYTES
              || (e.context !in live && (|live| == MAX_RECORDS || !e.opens))
              || e.room < size
  {
    var s, r := Run(events), Expected(events);
    RunInv(events);
    assert (events + [e])[..|events|] == events;
    RecordSize(e.packet);
    FindWorks(s, r, e.context);
    TableFull(s.table, r.live);
    assert Recording(s, r);
    EntryOpen(s, r, e.context);
    hide Recording, Record, Expected, Total;
    SubmittedStops(s, e);
    hide Submitted;
  }

  lemma {:induction false} EntryOpen(s: State, r: Reference, c: nat)
    requires Recording(s, r) && c != 0
    ensures Find(s.table, c) < |s.table| ==> 0 <= s.table[Find(s.table, c)].file < |s.files|
  {
    hide FileOf, Total;
  }

  lemma {:induction false} SubmittedStops(s: State, e: Event)
    requires e.Submit? && |s.table| == MAX_RECORDS && !s.stopped
    requires var i := Find(s.table, e.context); i < |s.table| ==> 0 <= s.table[i].file < |s.files|
    ensures var known := Find(s.table, e.context) < |s.table|;
            Submitted(s, e).stopped <==>
              || e.elapsed >= MAX_SECONDS
              || s.written + |e.packet.data| + 16 > MAX_BYTES
              || (!known && (Find(s.table, 0) == |s.table| || !e.opens))
              || e.room < |Record(e.packet)| + (if known then 0 else |MAGIC|)
  {
    hide Record, Find, CloseAll, Took;
  }

  // ------------------------------------------------------- what a lifetime is

  /** The packets of context c up to its next free. */
  ghost function Collect(events: seq<Event>, c: nat): seq<Packet> {
    if events == [] || events[0] == Free(c) then []
    else (if events[0].Submit? && events[0].context == c then [events[0].packet] else []) + Collect(events[1..], c)
  }

  ghost predicate Ended(events: seq<Event>, c: nat) {
    exists k | 0 <= k < |events| :: events[k] == Free(c)
  }

  lemma {:induction false} CollectSnoc(events: seq<Event>, e: Event, c: nat)
    ensures Collect(events + [e], c) ==
            if Ended(events, c) || !e.Submit? || e.context != c then Collect(events, c)
                else Collect(events, c) + [e.packet]
  {
    if events == [] {
      assert [e][1..] == [];
      assert Collect([e][1..], c) == [];
    } else {
      CollectSnoc(events[1..], e, c);
      assert (events + [e])[1..] == events[1..] + [e];
      if events[0] != Free(c) && Ended(events, c) {
        var k :| 0 <= k < |events| && events[k] == Free(c);
        assert events[1..][k - 1] == Free(c);
      }
      if Ended(events[1..], c) {
        var k :| 0 <= k < |events[1..]| && events[1..][k] == Free(c);
        assert events[k + 1] == Free(c);
      }
    }
  }

  /** Lifetime k starts at event `birth`, with a packet of a context that is not
      alive then, and holds exactly that context's packets until it is freed. */
  ghost predicate LifetimeOf(events: seq<Event>, k: nat, birth: nat) {
    var r := Expected(events);
    && birth < |events| && events[birth].Submit? && k < |r.packets|
    && var c := events[birth].context;
       && c !in Expected(events[..birth]).live && |Expected(events[..birth]).packets| == k
       && r.packets[k] == Collect(events[birth..], c)
       && (c in r.live && r.live[c] == k <==> !Ended(events[birth..], c))
  }

  lemma {:induction false} Lifetimes(events: seq<Event>, k: nat) returns (birth: nat)
    requires k < |Expected(events).packets|
    ensures LifetimeOf(events, k, birth)
    ensures forall c | c in Expected(events).live && Expected(events).live[c] == k :: c == events[birth].context
  {
    var last := |events| - 1;
    var before, e := events[..last], events[last];
    var r := Expected(before);
    if k < |r.packets| {
      birth := Lifetimes(before, k);
      var c := events[birth].context;
      assert before[..birth] == events[..birth];
      assert events[birth..] == before[birth..] + [e];
      CollectSnoc(before[birth..], e, c);
      if Ended(before[birth..], c) {
        var m :| 0 <= m < |before[birth..]| && before[birth..][m] == Free(c);
        assert events[birth..][m] == Free(c);
      }
      if Ended(events[birth..], c) && !Ended(before[birth..], c) {
        var m :| 0 <= m < |events[birth..]| && events[birth..][m] == Free(c);
        assert m == last - birth;
      }
      assert events[birth..][last - birth] == e;
    } else {
      birth := last;
      assert events[last..] == [e];
      assert Collect([e][1..], e.context) == [];
    }
  }

  // ---------------------------------------------------------- the recorder in place

  class Library {
    const recordings: array<Entry>
    var files: seq<seq<byte>>
    var written: nat
    var stopped: bool

    ghost predicate Valid()
      reads this
    {
      recordings.Length == MAX_RECORDS
    }

    ghost function View(): (s: State)
      requires Valid()
      reads this, recordings
      ensures |s.table| == MAX_RECORDS
    {
      State(recordings[..], files, written, stopped)
    }

    constructor ()
      ensures Valid() && View() == START && fresh(recordings)
    {
      recordings := new Entry[MAX_RECORDS](_ => NONE);
      files, written, stopped := [], 0, false;
      new;
      assert recordings[..] == START.table;
    }

    /** stop_recording: closes every descriptor and records nothing from now on. */
    method StopRecording()
      requires Valid()
      modifies this, recordings
      ensures Valid() && View() == Stopped(old(View()))
    {
      stopped := true;
      var i := 0;
      while i < MAX_RECORDS
        invariant i <= MAX_RECORDS && files == old(files) && written == old(written) && stopped
        invariant forall k | 0 <= k < MAX_RECORDS ::
                    recordings[k] == if k < i then Entry(old(recordings[k]).context, -1) else old(recordings[k])
      {
        recordings[i] := Entry(recordings[i].context, -1);
        i := i + 1;
      }
      assert recordings[..] == CloseAll(old(recordings[..]));
    }

    /** The linear search for a context, and for a free entry (context 0). */
    method Search(context: nat) returns (i: nat)
      requires Valid()
      ensures i == Find(recordings[..], context)
    {
      i := 0;
      while i < MAX_RECORDS
        invariant i <= MAX_RECORDS && Find(recordings[..], context) == i + Find(recordings[i..], context)
      {
        if recordings[i].context == context {
          return;
        }
        assert recordings[i..][1..] == recordings[i + 1..];
        i := i + 1;
      }
    }

    /** write_all on file k, which accepts `room` more bytes. */
    method WriteAll(k: int, bytes: seq<byte>, room: nat) returns (ok: bool)
      modifies this`files
      ensures ok <==> 0 <= k < |old(files)| && |bytes| <= room
      ensures files == if 0 <= k < |old(files)| then old(files)[k := old(files)[k] + Took(bytes, room)] else old(files)
    {
      if k < 0 || k >= |files| {
        return false;
      }
      files := files[k := files[k] + Took(bytes, room)];
      ok := |bytes| <= room;
    }

    /** A new file and its magic. */
    method OpenFile(room: nat) returns (ok: bool)
      modifies this`files
      ensures files == old(files) + [Took(MAGIC, room)]
      ensures ok <==> |MAGIC| <= room
    {
      files := files + [[]];
      ok := WriteAll(|files| - 1, MAGIC, room);
      assert [] + Took(MAGIC, room) == Took(MAGIC, room);
    }

    method RecordPacket(e: Event)
      requires Valid() && e.Submit? && Possible(e)
      modifies this, recordings
      ensures Valid() && View() == Submitted(old(View()), e)
    {
      if stopped {
        return;
      }
      if e.elapsed >= MAX_SECONDS || written + |e.packet.data| + 16 > MAX_BYTES {
        StopRecording();
        return;
      }
      var room := e.room;
      var i := Search(e.context);
      if i == MAX_RECORDS {
        i := Search(0);
        if i == MAX_RECORDS || !e.opens {
          StopRecording();
          return;
        }
        var ok := OpenFile(room);
        if !ok {
          StopRecording();
          return;
        }
        written := written + |MAGIC|;
        room := room - |MAGIC|;
        recordings[i] := Entry(e.context, |files| - 1);
        assert recordings[..] == old(recordings[..])[i := Entry(e.context, |files| - 1)];
      }
      AppendPacket(i, e.packet, room);
    }

    /** Header and payload, in two writes. */
    method AppendPacket(i: nat, p: Packet, room: nat)
      requires Valid() && i < MAX_RECORDS && Recordable(p)
      modifies this, recordings
      ensures Valid() && View() == Appended(old(View()), i, p, room)
    {
      var header := ToLittleEndian(|p.data|, 4) + ToLittleEndian(p.flags, 4);
      var k := recordings[i].file;
      var ok := WriteAll(k, header, room);
      if !ok {
        assert 0 <= k < |old(files)| ==> Took(Record(p), room) == Took(header, room);
        StopRecording();
        return;
      }
      ok := WriteAll(k, p.data, room - |header|);
      assert Took(Record(p), room) == header + Took(p.data, room - |header|);
      assert files[k] == old(files)[k] + Took(Record(p), room);
      assert files == old(files)[k := old(files)[k] + Took(Record(p), room)];
      if !ok {
        StopRecording();
        return;
      }
      written := written + |header| + |p.data|;
    }

    method FreeContext(context: nat)
      requires Valid() && context != 0
      modifies recordings
      ensures View() == Freed(old(View()), context)
    {
      var i := 0;
      while i < MAX_RECORDS
        invariant i <= MAX_RECORDS
        invariant forall k | 0 <= k < MAX_RECORDS ::
                    recordings[k] == if k < i && old(recordings[k]).context == context then NONE else old(recordings[k])
      {
        if recordings[i].context == context {
          recordings[i] := NONE;
        }
        i := i + 1;
      }
      assert recordings[..] == Forget(old(recordings[..]), context);
    }
  }
}

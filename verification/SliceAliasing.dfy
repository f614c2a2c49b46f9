/** The batch of reporter/http/http.go as Go slices: windows onto shared backing arrays. The in-flight
    snapshot shares the array of the live batch and is read without the lock; nothing ever writes into it. */
module SliceAliasing {
  import opened Model
  import opened BatchReporter
  import opened ReporterSafety

  /** A slice header: array, offset, length and capacity. */
  datatype Slice = Slice(arr: nat, off: nat, len: nat, cap: nat)

  /** The backing arrays allocated so far. */
  type Memory<T> = seq<seq<T>>

  predicate Fits<T>(mem: Memory<T>, s: Slice) {
    s.arr < |mem| && s.len <= s.cap && s.off + s.cap <= |mem[s.arr]|
  }

  function Contents<T>(mem: Memory<T>, s: Slice): (c: seq<T>)
    requires Fits(mem, s)
    ensures |c| == s.len
  {
    mem[s.arr][s.off..s.off + s.len]
  }

  /** append(s, x): in place while there is capacity, else into a new array with `spare` more slots. */
  function GoAppend<T>(mem: Memory<T>, s: Slice, x: T, spare: nat): (Memory<T>, Slice)
    requires Fits(mem, s)
  {
    if s.len < s.cap then
      (mem[s.arr := mem[s.arr][s.off + s.len := x]], s.(len := s.len + 1))
    else
      (mem + [Contents(mem, s) + [x] + seq(spare, _ => x)], Slice(|mem|, 0, s.len + 1, s.len + 1 + spare))
  }

  /** s[n:] */
  function Reslice(s: Slice, n: nat): Slice
    requires n <= s.len <= s.cap
  {
    Slice(s.arr, s.off + n, s.len - n, s.cap - n)
  }

  /** The protocol state together with the slices that represent it. */
  datatype Machine<T> = Machine(proto: State<T>, mem: Memory<T>, batch: Slice, snapshot: Slice)

  function InitialMachine<T>(): Machine<T> {
    Machine(Initial(), [[]], Slice(0, 0, 0, 0), Slice(0, 0, 0, 0))
  }

  function AppendSlices<T>(config: Config, m: Machine<T>, span: T, spare: nat): Machine<T>
    requires Fits(m.mem, m.batch)
  {
    var (mem, longer) := GoAppend(m.mem, m.batch, span, spare);
    var dispose := longer.len - config.maxBacklog;
    m.(mem := mem, batch := if 0 < dispose <= longer.len then Reslice(longer, dispose) else longer)
  }

  function StepMachine<T>(config: Config, m: Machine<T>, e: Event<T>, spare: nat): Machine<T>
    requires Enabled(m.proto, e) && Fits(m.mem, m.batch)
  {
    var proto := Step(config, m.proto, e);
    match e
    case Append => AppendSlices(config, m, m.proto.loop.span, spare).(proto := proto)
    case TakeSnapshot => m.(proto := proto, snapshot := m.batch)
    case Remove =>
      m.(proto := proto,
         batch := if m.snapshot.len <= m.batch.len then Reslice(m.batch, m.snapshot.len) else m.batch)
    case _ => m.(proto := proto)
  }

  /** A run of the machine; each event comes with the spare room that an append would allocate. */
  function RunMachine<T>(config: Config, m: Machine<T>, events: seq<Event<T>>, spares: seq<nat>): Option<Machine<T>>
    requires |events| == |spares|
    decreases |events|
  {
    if events == [] then Some(m)
    else if Enabled(m.proto, events[0]) && Fits(m.mem, m.batch) then
      RunMachine(config, StepMachine(config, m, events[0], spares[0]), events[1..], spares[1..])
    else None
  }

  /** The snapshot is a window that ends no later than the live batch in the same array. */
  predicate Behind(snapshot: Slice, batch: Slice) {
    snapshot.arr == batch.arr ==> snapshot.off + snapshot.len <= batch.off + batch.len
  }

  predicate Represents<T(==)>(m: Machine<T>) {
    && Fits(m.mem, m.batch)
    && Contents(m.mem, m.batch) == m.proto.batch
    && (UnderWay(m.proto) ==> SnapshotIntact(m))
  }

  predicate UnderWay<T>(s: State<T>) {
    s.sender.InFlight? || s.sender.Removing?
  }

  predicate SnapshotIntact<T(==)>(m: Machine<T>)
    requires UnderWay(m.proto)
  {
    && Fits(m.mem, m.snapshot)
    && Contents(m.mem, m.snapshot) == m.proto.sender.request.payload
    && Behind(m.snapshot, m.batch)
  }

  // ---------------------------------------------------------------------------
  // One append
  // ---------------------------------------------------------------------------

  lemma GoAppendContents<T>(mem: Memory<T>, s: Slice, x: T, spare: nat)
    requires Fits(mem, s)
    ensures var (mem', s') := GoAppend(mem, s, x, spare);
            && Fits(mem', s')
            && Contents(mem', s') == Contents(mem, s) + [x]
  {
    if s.len < s.cap {
      var a := mem[s.arr];
      var a' := a[s.off + s.len := x];
      assert a'[s.off..s.off + s.len] == a[s.off..s.off + s.len];
      assert a'[s.off..s.off + s.len + 1] == a'[s.off..s.off + s.len] + [x];
    }
  }

  /** Where an append writes: while there is capacity into the slot after the slice, in the array it shares
      with others, and nowhere else; without capacity into a new array, and no old one changes. */
  lemma GoAppendWrites<T>(mem: Memory<T>, s: Slice, x: T, spare: nat, arr: nat, i: nat)
    requires Fits(mem, s) && arr < |mem| && i < |mem[arr]|
    ensures var (mem', s') := GoAppend(mem, s, x, spare);
            && |mem'| >= |mem| && |mem'[arr]| == |mem[arr]|
            && (mem'[arr][i] != mem[arr][i] ==> s.len < s.cap && arr == s.arr && i == s.off + s.len)
            && s'.len == s.len + 1 && s'.off + s.len < |mem'[s'.arr]| && mem'[s'.arr][s'.off + s.len] == x
            && (if s.len < s.cap then s'.arr == s.arr && s'.off == s.off && s'.cap == s.cap && |mem'| == |mem|
                else s'.arr == |mem| == |mem'| - 1 && s'.cap == s.len + 1 + spare)
  {
  }

  /** An append leaves every window alone that does not reach beyond the end of the appended slice, although
      it may share its array. */
  lemma GoAppendLeaves<T>(mem: Memory<T>, s: Slice, x: T, spare: nat, w: Slice)
    requires Fits(mem, s) && Fits(mem, w) && Behind(w, s)
    ensures var (mem', s') := GoAppend(mem, s, x, spare);
            && Fits(mem', w)
            && Contents(mem', w) == Contents(mem, w)
            && Behind(w, s')
  {
    if s.len < s.cap && w.arr == s.arr {
      var a := mem[s.arr];
      assert a[s.off + s.len := x][w.off..w.off + w.len] == a[w.off..w.off + w.len];
    }
  }

  lemma ResliceContents<T>(mem: Memory<T>, s: Slice, n: nat)
    requires Fits(mem, s) && n <= s.len
    ensures Fits(mem, Reslice(s, n))
    ensures Contents(mem, Reslice(s, n)) == Contents(mem, s)[n..]
    ensures Reslice(s, n).off + Reslice(s, n).len == s.off + s.len
  {
  }

  lemma AppendSlicesContents<T>(config: Config, m: Machine<T>, span: T, spare: nat)
    requires config.maxBacklog >= 0 && Fits(m.mem, m.batch)
    ensures var m' := AppendSlices(config, m, span, spare);
            && Fits(m'.mem, m'.batch)
            && Some(Contents(m'.mem, m'.batch)) == AppendBatch(Contents(m.mem, m.batch), span, config.maxBacklog)
  {
    GoAppendContents(m.mem, m.batch, span, spare);
    var (mem, longer) := GoAppend(m.mem, m.batch, span, spare);
    if longer.len > config.maxBacklog {
      ResliceContents(mem, longer, longer.len - config.maxBacklog);
    }
  }

  lemma AppendSlicesLeaves<T>(config: Config, m: Machine<T>, span: T, spare: nat, w: Slice)
    requires Fits(m.mem, m.batch) && Fits(m.mem, w) && Behind(w, m.batch)
    ensures var m' := AppendSlices(config, m, span, spare);
            Fits(m'.mem, w) && Contents(m'.mem, w) == Contents(m.mem, w) && Behind(w, m'.batch)
  {
    GoAppendLeaves(m.mem, m.batch, span, spare, w);
  }

  // ---------------------------------------------------------------------------
  // Every run
  // ---------------------------------------------------------------------------

  lemma AppendKeepsRepresents<T>(config: Config, m: Machine<T>, spare: nat)
    requires config.maxBacklog >= 0 && Represents(m) && m.proto.loop.Appending?
    ensures Represents(StepMachine(config, m, Append, spare))
  {
    var span := m.proto.loop.span;
    AppendSlicesContents(config, m, span, spare);
    if UnderWay(m.proto) {
      AppendSlicesLeaves(config, m, span, spare, m.snapshot);
    }
  }

  lemma RemoveKeepsRepresents<T>(config: Config, m: Machine<T>, spare: nat)
    requires Represents(m) && Enabled(m.proto, Remove)
    ensures Represents(StepMachine(config, m, Remove, spare))
  {
    if m.snapshot.len <= m.batch.len {
      ResliceContents(m.mem, m.batch, m.snapshot.len);
    }
  }

  lemma StepKeepsRepresents<T>(config: Config, m: Machine<T>, e: Event<T>, spare: nat)
    requires config.maxBacklog >= 0 && Represents(m) && Enabled(m.proto, e)
    ensures Represents(StepMachine(config, m, e, spare))
  {
    match e {
      case Append => AppendKeepsRepresents(config, m, spare);
      case Remove => RemoveKeepsRepresents(config, m, spare);
      case _ =>
    }
  }

  lemma {:induction false} RunKeepsRepresents<T>(config: Config, m: Machine<T>, events: seq<Event<T>>, spares: seq<nat>)
    requires config.maxBacklog >= 0 && Represents(m) && |events| == |spares|
    ensures var r, p := RunMachine(config, m, events, spares), Run(config, m.proto, events);
            && (r.Some? <==> p.Some?)
            && (r.Some? ==> Represents(r.value) && r.value.proto == p.value)
    decreases |events|
  {
    if events != [] && Enabled(m.proto, events[0]) {
      StepKeepsRepresents(config, m, events[0], spares[0]);
      RunKeepsRepresents(config, StepMachine(config, m, events[0], spares[0]), events[1..], spares[1..]);
    }
  }

  /** Whatever the interleaving and however append grows its arrays: the slices simulate the protocol, and as
      long as a request is under way its snapshot reads the spans it was taken with. */
  lemma SnapshotNeverChanges<T>(config: Config, events: seq<Event<T>>, spares: seq<nat>)
    requires config.maxBacklog >= 0 && |events| == |spares|
    requires Run(config, Initial(), events).Some?
    ensures var r := RunMachine(config, InitialMachine(), events, spares);
            && r.Some?
            && r.value.proto == Run(config, Initial(), events).value
            && Fits(r.value.mem, r.value.batch)
            && Contents(r.value.mem, r.value.batch) == r.value.proto.batch
            && (UnderWay(r.value.proto) ==> SnapshotIntact(r.value))
  {
    RunKeepsRepresents(config, InitialMachine<T>(), events, spares);
  }
}

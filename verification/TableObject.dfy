/** The Load State Machine (KNX 3/5/1 section 4.10) of one table object. */
module TableObject {
  import opened Basics

  const MAX_MEMORY_SIZE: nat := 256 * 1024
  const ALC_MIN_LENGTH: nat := 8
  const ALC_OPCODE_ALLOC: bv8 := 0x0B
  const ALC_FILL_ENABLED: bv8 := 0x01
  const U32_MAX: nat := 0xFFFF_FFFF

  datatype LoadState = Unloaded | Loaded | Loading | Failed | Unloading | LoadCompleting

  datatype LoadError = NoFault | UndefinedLoadCommand | InvalidOpcode | MaxTableLengthExceeded

  datatype LoadEvent = Noop | StartLoading | LoadCompleted | AdditionalLoadControls | Unload

  function LoadEventFrom(b: bv8): Option<LoadEvent> {
    if b == 0 then Some(Noop)
    else if b == 1 then Some(StartLoading)
    else if b == 2 then Some(LoadCompleted)
    else if b == 3 then Some(AdditionalLoadControls)
    else if b == 4 then Some(Unload)
    else None
  }

  /** State, last error, and the segment of the memory area. */
  datatype Table = Table(state: LoadState, error: LoadError, offset: nat, size: nat)

  const NEW_TABLE: Table := Table(Unloaded, NoFault, 0, 0)

  /** A segment to be filled. */
  datatype Fill = Fill(offset: nat, size: nat, octet: bv8)

  /** The table after an event, whether it has become loaded, and what is to be filled. */
  datatype LoadStep = LoadStep(table: Table, becameLoaded: bool, fill: Option<Fill>)

  function WithoutSegment(t: Table, state: LoadState): Table {
    t.(state := state, offset := 0, size := 0)
  }

  function OnUnloaded(t: Table, e: LoadEvent): Table {
    if e == StartLoading then WithoutSegment(t, Loading) else t
  }

  function OnLoaded(t: Table, e: LoadEvent): Table {
    match e
    case Noop | LoadCompleted => t
    case StartLoading => WithoutSegment(t, Loading)
    case Unload => WithoutSegment(t, Unloaded)
    case AdditionalLoadControls => t.(state := Failed, error := InvalidOpcode)
  }

  function OnFailed(t: Table, e: LoadEvent): Table {
    if e == Unload then WithoutSegment(t, Unloaded) else t
  }

  /** The size in an allocation record, most significant octet first. */
  function SizeIn(data: Octets): nat
    requires |data| >= ALC_MIN_LENGTH
  {
    data[2] as nat * 0x100_0000 + data[3] as nat * 0x1_0000 + data[4] as nat * 0x100 + data[5] as nat
  }

  function EndOf(memoryLen: nat): nat {
    if memoryLen <= U32_MAX then memoryLen else U32_MAX
  }

  /** Reserve a segment at the end of the memory area. */
  function Allocating(t: Table, data: Octets, memoryLen: nat): LoadStep {
    if |data| < ALC_MIN_LENGTH || data[1] != ALC_OPCODE_ALLOC then
      LoadStep(t.(state := Failed, error := InvalidOpcode), false, None)
    else if SizeIn(data) > MAX_MEMORY_SIZE then
      LoadStep(t.(state := Failed, error := MaxTableLengthExceeded), false, None)
    else
      LoadStep(t.(offset := EndOf(memoryLen), size := SizeIn(data)), false,
               if data[6] == ALC_FILL_ENABLED then Some(Fill(EndOf(memoryLen), SizeIn(data), data[7])) else None)
  }

  function OnLoading(t: Table, e: LoadEvent, data: Octets, memoryLen: nat): LoadStep {
    match e
    case Noop | StartLoading => LoadStep(t, false, None)
    case LoadCompleted => LoadStep(t.(state := Loaded), true, None)
    case Unload => LoadStep(WithoutSegment(t, Unloaded), false, None)
    case AdditionalLoadControls => Allocating(t, data, memoryLen)
  }

  /** A write to the load state control of a table, while the memory area has this length. */
  function OnLoadEvent(t: Table, data: Octets, memoryLen: nat): LoadStep {
    if data == [] then LoadStep(t, false, None)
    else
      match LoadEventFrom(data[0])
      case None => LoadStep(t.(state := Failed, error := UndefinedLoadCommand), false, None)
      case Some(e) =>
        match t.state
        case Unloaded => LoadStep(OnUnloaded(t, e), false, None)
        case Loading => OnLoading(t, e, data, memoryLen)
        case Loaded => LoadStep(OnLoaded(t, e), false, None)
        case Failed => LoadStep(OnFailed(t, e), false, None)
        case Unloading | LoadCompleting => LoadStep(t, false, None)
  }

  /** The octets of a loaded table; none if it has no segment or that is not inside the memory area. */
  function Data(t: Table, memory: Octets): Octets {
    if t.state != Loaded || t.size == 0 || t.offset + t.size > |memory| then []
    else memory[t.offset..t.offset + t.size]
  }

  /** Where the segment starts, from the allocation on. */
  function TableReference(t: Table): nat {
    if t.state == Unloaded then 0 else t.offset
  }

  /** The event makes the table reserve a segment. */
  predicate Allocates(t: Table, data: Octets) {
    t.state == Loading && |data| >= ALC_MIN_LENGTH && LoadEventFrom(data[0]) == Some(AdditionalLoadControls)
    && data[1] == ALC_OPCODE_ALLOC && SizeIn(data) <= MAX_MEMORY_SIZE
  }

  /** A table keeps its segment, gives it up, or reserves one at the end. */
  lemma SegmentAfter(t: Table, data: Octets, memoryLen: nat)
    ensures var s := OnLoadEvent(t, data, memoryLen);
            if Allocates(t, data) then
              && s.table == t.(offset := EndOf(memoryLen), size := SizeIn(data))
              && s.fill == (if data[6] == ALC_FILL_ENABLED then Some(Fill(EndOf(memoryLen), SizeIn(data), data[7])) else None)
            else
              s.fill.None? && ((s.table.offset == t.offset && s.table.size == t.size) || s.table.size == 0)
  {
  }

  // ── Transitions ─────────────────────────────────────────────────

  /** Where each command leads, by the first octet; what is no command fails in every state. */
  lemma StateAfter(t: Table, data: Octets, memoryLen: nat)
    requires data != []
    ensures var after := OnLoadEvent(t, data, memoryLen).table.state;
            after
            == if data[0] > 4 then Failed
               else if data[0] == 1 && t.state in {Unloaded, Loaded} then Loading
               else if data[0] == 2 && t.state == Loading then Loaded
               else if data[0] == 4 && t.state in {Loading, Loaded, Failed} then Unloaded
               else if data[0] == 3 && t.state == Loaded then Failed
               else if data[0] == 3 && t.state == Loading && !Allocates(t, data) then Failed
               else t.state
  {
  }

  /** Completing a download is the only way to become loaded. */
  lemma LoadedExactlyWhen(t: Table, data: Octets, memoryLen: nat)
    ensures OnLoadEvent(t, data, memoryLen).becameLoaded <==> t.state == Loading && data != [] && data[0] == 2
  {
  }

  /** What fails keeps its segment, and says why. */
  lemma FailureSaysWhy(t: Table, data: Octets, memoryLen: nat)
    requires data != []
    ensures var after := OnLoadEvent(t, data, memoryLen).table;
            && (data[0] > 4 ==> after == t.(state := Failed, error := UndefinedLoadCommand))
            && (data[0] == 3 && t.state == Loaded ==> after == t.(state := Failed, error := InvalidOpcode))
            && (data[0] == 3 && t.state == Loading && (|data| < 8 || data[1] != 0x0B) ==>
                  after == t.(state := Failed, error := InvalidOpcode))
            && (data[0] == 3 && t.state == Loading && |data| >= 8 && data[1] == 0x0B && SizeIn(data) > 262144 ==>
                  after == t.(state := Failed, error := MaxTableLengthExceeded))
  {
  }

  /** Starting and unloading give up the segment. */
  lemma SegmentIsGivenUp(t: Table, data: Octets, memoryLen: nat)
    requires data != []
    requires (data[0] == 1 && t.state in {Unloaded, Loaded}) || (data[0] == 4 && t.state in {Loading, Loaded, Failed})
    ensures var s := OnLoadEvent(t, data, memoryLen);
            s.table.offset == 0 && s.table.size == 0 && s.table.error == t.error && s.fill.None?
  {
  }

  /** Unloaded, a table can be loaded again, whatever happened to it before. */
  lemma StartsAfterUnload(t: Table, memoryLen: nat)
    requires t.state in {Unloaded, Loading, Loaded, Failed}
    ensures var unloaded := OnLoadEvent(t, [4], memoryLen).table;
            && unloaded.state == Unloaded
            && OnLoadEvent(unloaded, [1], memoryLen).table == Table(Loading, t.error, 0, 0)
  {
  }

  /** The size of a segment is written with the most significant octet first. */
  lemma SizeIsBigEndian()
    ensures SizeIn([0x03, 0x0B, 0x01, 0x02, 0x03, 0x04, 0x01, 0xFF]) == 0x0102_0304
  {
  }

  /** Only a loaded table has data, and only what is inside the memory area. */
  lemma DataIs(t: Table, memory: Octets)
    ensures t.state != Loaded || t.size == 0 || t.offset + t.size > |memory| ==> Data(t, memory) == []
    ensures t.state == Loaded && t.offset + t.size <= |memory| ==> Data(t, memory) == memory[t.offset..t.offset + t.size]
  {
  }

  // ── The device's own form ───────────────────────────────────────

  class TableObject {
    var state: LoadState
    var error: LoadError
    var dataOffset: nat
    var dataSize: nat

    ghost function Value(): Table
      reads this
    {
      Table(state, error, dataOffset, dataSize)
    }

    constructor (loaded: bool)
      ensures Value() == NEW_TABLE.(state := if loaded then Loaded else Unloaded)
    {
      state := if loaded then Loaded else Unloaded;
      error, dataOffset, dataSize := NoFault, 0, 0;
    }

    method ResetData()
      modifies this
      ensures Value() == old(Value()).(offset := 0, size := 0)
    {
      dataOffset, dataSize := 0, 0;
    }

    method HandleLoadEvent(data: Octets, memoryAreaLen: nat) returns (becameLoaded: bool, fill: Option<Fill>)
      modifies this
      ensures LoadStep(Value(), becameLoaded, fill) == OnLoadEvent(old(Value()), data, memoryAreaLen)
    {
      becameLoaded, fill := false, None;
      if data == [] {
        return;
      }
      var event := LoadEventFrom(data[0]);
      if event.None? {
        state, error := Failed, UndefinedLoadCommand;
        return;
      }
      match state {
        case Unloaded => HandleUnloaded(event.value);
        case Loading => becameLoaded, fill := HandleLoading(event.value, data, memoryAreaLen);
        case Loaded => HandleLoaded(event.value);
        case Failed => HandleFailed(event.value);
        case Unloading | LoadCompleting =>
      }
    }

    method HandleUnloaded(event: LoadEvent)
      modifies this
      ensures Value() == OnUnloaded(old(Value()), event)
    {
      if event == StartLoading {
        state := Loading;
        ResetData();
      }
    }

    method HandleLoading(event: LoadEvent, data: Octets, memoryAreaLen: nat)
      returns (becameLoaded: bool, fill: Option<Fill>)
      modifies this
      ensures LoadStep(Value(), becameLoaded, fill) == OnLoading(old(Value()), event, data, memoryAreaLen)
    {
      becameLoaded, fill := false, None;
      match event {
        case Noop | StartLoading =>
        case LoadCompleted =>
          state, becameLoaded := Loaded, true;
        case Unload =>
          state := Unloaded;
          ResetData();
        case AdditionalLoadControls =>
          fill := HandleAdditionalLoadControls(data, memoryAreaLen);
      }
    }

    method HandleLoaded(event: LoadEvent)
      modifies this
      ensures Value() == OnLoaded(old(Value()), event)
    {
      match event {
        case Noop | LoadCompleted =>
        case StartLoading =>
          state := Loading;
          ResetData();
        case Unload =>
          state := Unloaded;
          ResetData();
        case AdditionalLoadControls =>
          state, error := Failed, InvalidOpcode;
      }
    }

    method HandleFailed(event: LoadEvent)
      modifies this
      ensures Value() == OnFailed(old(Value()), event)
    {
      if event == Unload {
        state := Unloaded;
        ResetData();
      }
    }

    method HandleAdditionalLoadControls(data: Octets, memoryAreaLen: nat) returns (fill: Option<Fill>)
      modifies this
      ensures LoadStep(Value(), false, fill) == Allocating(old(Value()), data, memoryAreaLen)
    {
      if |data| < ALC_MIN_LENGTH || data[1] != ALC_OPCODE_ALLOC {
        state, error := Failed, InvalidOpcode;
        return None;
      }
      var size := SizeIn(data);
      if size > MAX_MEMORY_SIZE {
        state, error := Failed, MaxTableLengthExceeded;
        return None;
      }
      var offset := EndOf(memoryAreaLen);
      dataOffset, dataSize := offset, size;
      return if data[6] == ALC_FILL_ENABLED then Some(Fill(offset, size, data[7])) else None;
    }
  }
}

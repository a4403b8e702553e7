/**
 The memory area of a device and the segments its tables reserve in it, over load events, memory
 writes and master resets.
 */
module Segments {
  import opened Basics
  import opened TableObject

  /** The table objects, by their object index. */
  datatype Which = AddressTable | AssociationTable | GroupObjectTable | ApplicationProgram

  function TableIndex(objectIndex: nat): Option<Which> {
    match objectIndex
    case 1 => Some(AddressTable)
    case 2 => Some(AssociationTable)
    case 3 => Some(GroupObjectTable)
    case 4 => Some(ApplicationProgram)
    case _ => None
  }

  datatype Device = Device(memory: Octets, address: Table, association: Table, groupObject: Table, application: Table)

  function TableAt(d: Device, w: Which): Table {
    match w
    case AddressTable => d.address
    case AssociationTable => d.association
    case GroupObjectTable => d.groupObject
    case ApplicationProgram => d.application
  }

  function WithTable(d: Device, w: Which, t: Table): Device {
    match w
    case AddressTable => d.(address := t)
    case AssociationTable => d.(association := t)
    case GroupObjectTable => d.(groupObject := t)
    case ApplicationProgram => d.(application := t)
  }

  // ── The memory area ─────────────────────────────────────────────

  function Repeated(octet: bv8, n: nat): (r: Octets)
    ensures |r| == n && forall i :: 0 <= i < n ==> r[i] == octet
  {
    seq(n, _ => octet)
  }

  /** The area grown with zeros to at least this length. */
  function Grown(memory: Octets, length: nat): (r: Octets)
    ensures |r| == if length > |memory| then length else |memory|
    ensures memory <= r && forall i :: |memory| <= i < |r| ==> r[i] == 0
  {
    if length > |memory| then memory + Repeated(0, length - |memory|) else memory
  }

  /** The octets from `start` on replaced. */
  function Overwritten(memory: Octets, start: nat, data: Octets): (r: Octets)
    requires start + |data| <= |memory|
    ensures |r| == |memory| && r[start..start + |data|] == data
    ensures forall i :: 0 <= i < |memory| && !(start <= i < start + |data|) ==> r[i] == memory[i]
  {
    memory[..start] + data + memory[start + |data|..]
  }

  function Filled(memory: Octets, fill: Option<Fill>): Octets {
    match fill
    case None => memory
    case Some(Fill(offset, size, octet)) =>
      if offset + size > MAX_MEMORY_SIZE then memory
      else Overwritten(Grown(memory, offset + size), offset, Repeated(octet, size))
  }

  /** Writes beyond the largest memory are refused. */
  function Written(memory: Octets, address: nat, data: Octets): Octets {
    if address + |data| > MAX_MEMORY_SIZE then memory
    else Overwritten(Grown(memory, address + |data|), address, data)
  }

  /** After a write within 256 KiB, octet by octet: the new ones, those before, and zeros in a gap. */
  lemma WrittenIs(memory: Octets, address: nat, data: Octets, i: nat)
    ensures var after := Written(memory, address, data);
            if address + |data| > 0x40000 then after == memory
            else
              && |after| == (if |memory| < address + |data| then address + |data| else |memory|)
              && (i < |after| ==>
                    after[i] == if address <= i < address + |data| then data[i - address]
                                else if i < |memory| then memory[i] else 0)
  {
  }

  /** After a fill likewise. */
  lemma FilledIs(memory: Octets, fill: Fill, i: nat)
    ensures var after := Filled(memory, Some(fill));
            var end := fill.offset + fill.size;
            if end > 0x40000 then after == memory
            else
              && |after| == (if |memory| < end then end else |memory|)
              && (i < |after| ==>
                    after[i] == if fill.offset <= i < end then fill.octet
                                else if i < |memory| then memory[i] else 0)
  {
  }

  // ── Events ──────────────────────────────────────────────────────

  const ERASE_RESET_AP: nat := 4
  const ERASE_RESET_PARAM: nat := 5
  const ERASE_RESET_LINKS: nat := 6
  const ERASE_FACTORY_RESET: nat := 2
  const ERASE_FACTORY_RESET_WITHOUT_IA: nat := 7

  predicate ErasesAll(code: nat) {
    code == ERASE_FACTORY_RESET || code == ERASE_FACTORY_RESET_WITHOUT_IA
  }

  datatype Event =
    | LoadControl(objectIndex: nat, data: Octets)
    | MemoryWrite(address: nat, data: Octets)
    | MasterReset(eraseCode: nat)

  function LinksReset(d: Device): Device {
    d.(address := NEW_TABLE, association := NEW_TABLE)
  }

  function Reset(d: Device, code: nat): Device {
    if code == ERASE_RESET_LINKS then LinksReset(d)
    else if code == ERASE_RESET_AP || code == ERASE_RESET_PARAM then d.(application := NEW_TABLE)
    else if ErasesAll(code) then LinksReset(d).(application := NEW_TABLE, memory := [])
    else d
  }

  /** Which tables each erase code makes new, and which it leaves; only a factory reset clears the memory. */
  lemma ResetsExactly(d: Device, code: nat)
    ensures var after := Reset(d, code);
            && after.address == (if code in {2, 6, 7} then Table(Unloaded, NoFault, 0, 0) else d.address)
            && after.association == (if code in {2, 6, 7} then Table(Unloaded, NoFault, 0, 0) else d.association)
            && after.application == (if code in {2, 4, 5, 7} then Table(Unloaded, NoFault, 0, 0) else d.application)
            && after.groupObject == d.groupObject
            && after.memory == (if code in {2, 7} then [] else d.memory)
  {
  }

  /** All tables are loaded: the device takes part in group communication. */
  predicate Configured(d: Device) {
    d.address.state == Loaded && d.association.state == Loaded && d.groupObject.state == Loaded && d.application.state == Loaded
  }

  /** Every reset that erases something takes the device out of group communication. */
  lemma ResetUnconfigures(d: Device, code: nat)
    ensures Configured(Reset(d, code)) <==> Configured(d) && code !in {2, 4, 5, 6, 7}
  {
  }

  function Controlled(d: Device, w: Which, data: Octets): Device {
    var s := OnLoadEvent(TableAt(d, w), data, |d.memory|);
    WithTable(d, w, s.table).(memory := Filled(d.memory, s.fill))
  }

  function Step(d: Device, e: Event): Device {
    match e
    case LoadControl(index, data) => (match TableIndex(index) case None => d case Some(w) => Controlled(d, w, data))
    case MemoryWrite(address, data) => d.(memory := Written(d.memory, address, data))
    case MasterReset(code) => Reset(d, code)
  }

  function Run(d: Device, es: seq<Event>): Device
    decreases |es|
  {
    if es == [] then d else Run(Step(d, es[0]), es[1..])
  }

  // ── Segments ────────────────────────────────────────────────────

  predicate Inside(t: Table, length: nat) {
    t.size == 0 || t.offset + t.size <= length
  }

  predicate Apart(t: Table, u: Table) {
    t.size == 0 || u.size == 0 || t.offset + t.size <= u.offset || u.offset + u.size <= t.offset
  }

  /** The segments of these tables are inside the memory area and do not overlap. */
  predicate SegmentsOk(d: Device, among: set<Which>) {
    && |d.memory| <= MAX_MEMORY_SIZE
    && (forall w :: w in among ==> Inside(TableAt(d, w), |d.memory|))
    && (forall v, w :: v in among && w in among && v != w ==> Apart(TableAt(d, v), TableAt(d, w)))
  }

  /**
   What keeps the segments in order: an allocation asks for a fill that fits, or for nothing, and a
   reset that erases the memory finds no segment of the group object table.
   */
  predicate Harmless(d: Device, e: Event, among: set<Which>) {
    match e
    case LoadControl(index, data) =>
      (match TableIndex(index)
       case None => true
       case Some(w) =>
         w in among && Allocates(TableAt(d, w), data) ==>
           SizeIn(data) == 0 || (data[6] == ALC_FILL_ENABLED && |d.memory| + SizeIn(data) <= MAX_MEMORY_SIZE))
    case MemoryWrite(_, _) => true
    case MasterReset(code) => ErasesAll(code) && GroupObjectTable in among ==> d.groupObject.size == 0
  }

  lemma TableReplaced(d: Device, w: Which, t: Table, memory: Octets)
    ensures forall v :: TableAt(WithTable(d, w, t).(memory := memory), v) == if v == w then t else TableAt(d, v)
  {
  }

  /** One table has another segment, and the memory area has not become shorter. */
  lemma ReplacedKeepsOk(d: Device, w: Which, t: Table, memory: Octets, among: set<Which>)
    requires SegmentsOk(d, among) && |d.memory| <= |memory| <= MAX_MEMORY_SIZE
    requires w in among ==> Inside(t, |memory|)
    requires w in among ==> forall v :: v in among && v != w ==> Apart(TableAt(d, v), t)
    ensures SegmentsOk(WithTable(d, w, t).(memory := memory), among)
  {
    TableReplaced(d, w, t, memory);
  }

  lemma FilledIsLonger(memory: Octets, fill: Option<Fill>)
    requires |memory| <= MAX_MEMORY_SIZE
    ensures |memory| <= |Filled(memory, fill)| <= MAX_MEMORY_SIZE
  {
  }

  /** A load event keeps the segments in order exactly if it is harmless. */
  lemma ControlKeepsExactlyWhen(d: Device, index: nat, w: Which, data: Octets, among: set<Which>)
    requires SegmentsOk(d, among) && TableIndex(index) == Some(w)
    ensures SegmentsOk(Controlled(d, w, data), among) <==> Harmless(d, LoadControl(index, data), among)
  {
    var t := TableAt(d, w);
    var s := OnLoadEvent(t, data, |d.memory|);
    var memory := Filled(d.memory, s.fill);
    SegmentAfter(t, data, |d.memory|);
    FilledIsLonger(d.memory, s.fill);
    TableReplaced(d, w, s.table, memory);
    if Harmless(d, LoadControl(index, data), among) {
      ReplacedKeepsOk(d, w, s.table, memory, among);
    } else {
      assert TableAt(Controlled(d, w, data), w) == s.table;
      assert !Inside(s.table, |memory|);
    }
  }

  /** An event keeps the segments in order exactly if it is harmless. */
  lemma StepKeepsExactlyWhen(d: Device, e: Event, among: set<Which>)
    requires SegmentsOk(d, among)
    ensures SegmentsOk(Step(d, e), among) <==> Harmless(d, e, among)
  {
    match e
    case LoadControl(index, data) =>
      if TableIndex(index).Some? {
        ControlKeepsExactlyWhen(d, index, TableIndex(index).value, data, among);
      }
    case MemoryWrite(address, data) =>
    case MasterReset(code) =>
      if ErasesAll(code) && GroupObjectTable in among && d.groupObject.size > 0 {
        assert !Inside(TableAt(Step(d, e), GroupObjectTable), 0);
      }
  }

  predicate AllHarmless(d: Device, es: seq<Event>, among: set<Which>)
    decreases |es|
  {
    es == [] || (Harmless(d, es[0], among) && AllHarmless(Step(d, es[0]), es[1..], among))
  }

  /** Over every run of harmless events the segments stay inside the memory area and apart. */
  lemma {:induction false} RunKeepsSegments(d: Device, es: seq<Event>, among: set<Which>)
    requires SegmentsOk(d, among) && AllHarmless(d, es, among)
    ensures SegmentsOk(Run(d, es), among)
    decreases |es|
  {
    if es != [] {
      StepKeepsExactlyWhen(d, es[0], among);
      RunKeepsSegments(Step(d, es[0]), es[1..], among);
    }
  }

  /** The tables that a reset of the memory clears. */
  const DOWNLOADED: set<Which> := {AddressTable, AssociationTable, ApplicationProgram}

  predicate Fits(d: Device, e: Event) {
    match e
    case LoadControl(index, data) =>
      (match TableIndex(index)
       case None => true
       case Some(w) =>
         Allocates(TableAt(d, w), data) ==> data[6] == ALC_FILL_ENABLED && |d.memory| + SizeIn(data) <= MAX_MEMORY_SIZE)
    case _ => true
  }

  predicate AllFit(d: Device, es: seq<Event>)
    decreases |es|
  {
    es == [] || (Fits(d, es[0]) && AllFit(Step(d, es[0]), es[1..]))
  }

  /** Where each allocation asks for a fill that fits, the downloaded tables never overlap, whatever is reset. */
  lemma {:induction false} DownloadedStayApart(d: Device, es: seq<Event>)
    requires SegmentsOk(d, DOWNLOADED) && AllFit(d, es)
    ensures SegmentsOk(Run(d, es), DOWNLOADED)
    decreases |es|
  {
    if es != [] {
      StepKeepsExactlyWhen(d, es[0], DOWNLOADED);
      DownloadedStayApart(Step(d, es[0]), es[1..]);
    }
  }

  /** A device as it is constructed. */
  const NEW_DEVICE: Device := Device([], NEW_TABLE, NEW_TABLE, NEW_TABLE.(state := Loaded), NEW_TABLE)

  predicate FillingAllocation(data: Octets) {
    && Allocates(NEW_TABLE.(state := Loading), data) && SizeIn(data) > 0 && data[6] == ALC_FILL_ENABLED
  }

  /** A download of the group object table gives it a segment. */
  lemma GroupObjectsLoaded(data: Octets)
    requires FillingAllocation(data)
    ensures var d := Run(NEW_DEVICE, [LoadControl(3, [1]), LoadControl(3, data), LoadControl(3, [2])]);
            && d.groupObject == Table(Loaded, NoFault, 0, SizeIn(data))
            && |d.memory| == SizeIn(data) && SegmentsOk(d, DOWNLOADED + {GroupObjectTable})
  {
    GroupObjectsPrepared(data);
    var prepared := Prepared(NEW_DEVICE, 3, data);
    GroupObjectsCompleted(prepared);
    OneSegment(Step(prepared, LoadControl(3, [2])), DOWNLOADED + {GroupObjectTable});
    RunOfThree(NEW_DEVICE, LoadControl(3, [1]), LoadControl(3, data), LoadControl(3, [2]));
  }

  lemma GroupObjectsCompleted(d: Device)
    requires d.groupObject.state == Loading
    ensures Step(d, LoadControl(3, [2])) == d.(groupObject := d.groupObject.(state := Loaded))
  {
    assert TableIndex(3) == Some(GroupObjectTable);
    assert OnLoadEvent(d.groupObject, [2], |d.memory|) == LoadStep(d.groupObject.(state := Loaded), true, None);
  }

  lemma OneSegment(d: Device, among: set<Which>)
    requires |d.memory| <= MAX_MEMORY_SIZE && Inside(d.groupObject, |d.memory|)
    requires d.address.size == 0 && d.association.size == 0 && d.application.size == 0
    ensures SegmentsOk(d, among)
  {
    forall w ensures w != GroupObjectTable ==> TableAt(d, w).size == 0 {
    }
  }

  lemma GroupObjectsPrepared(data: Octets)
    requires FillingAllocation(data)
    ensures var d := Prepared(NEW_DEVICE, 3, data);
            && d == NEW_DEVICE.(groupObject := Table(Loading, NoFault, 0, SizeIn(data)), memory := d.memory)
            && |d.memory| == SizeIn(data)
  {
    var a := Step(NEW_DEVICE, LoadControl(3, [1]));
    assert a == NEW_DEVICE.(groupObject := NEW_TABLE.(state := Loading));
    AllocationFills(a, GroupObjectTable, data);
  }

  /**
   The segment of the group object table survives a factory reset while the memory does not: the
   next segment overlaps it.
   */
  lemma FactoryResetLeavesGroupSegment(d: Device, n: nat, data: Octets)
    requires d.groupObject == Table(Loaded, NoFault, 0, n) && n > 0 && FillingAllocation(data)
    ensures var after := Run(d, [MasterReset(ERASE_FACTORY_RESET), LoadControl(1, [1]), LoadControl(1, data)]);
            !Apart(after.address, after.groupObject) && after.groupObject == d.groupObject
  {
    var a := Step(d, MasterReset(ERASE_FACTORY_RESET));
    var b := Step(a, LoadControl(1, [1]));
    assert b.address == NEW_TABLE.(state := Loading) && b.memory == [];
    SegmentAfter(b.address, data, 0);
    RunOfThree(d, MasterReset(ERASE_FACTORY_RESET), LoadControl(1, [1]), LoadControl(1, data));
  }

  /** A run of a new device in which the group object table and the address table come to overlap. */
  lemma SegmentsOverlap(groups: Octets, addresses: Octets)
    requires FillingAllocation(groups) && FillingAllocation(addresses)
    ensures var loading := [LoadControl(3, [1]), LoadControl(3, groups), LoadControl(3, [2])];
            var resetting := [MasterReset(ERASE_FACTORY_RESET), LoadControl(1, [1]), LoadControl(1, addresses)];
            var after := Run(NEW_DEVICE, loading + resetting);
            !Apart(after.address, after.groupObject) && !SegmentsOk(after, DOWNLOADED + {GroupObjectTable})
  {
    var loading := [LoadControl(3, [1]), LoadControl(3, groups), LoadControl(3, [2])];
    var resetting := [MasterReset(ERASE_FACTORY_RESET), LoadControl(1, [1]), LoadControl(1, addresses)];
    GroupObjectsLoaded(groups);
    FactoryResetLeavesGroupSegment(Run(NEW_DEVICE, loading), SizeIn(groups), addresses);
    RunApart(NEW_DEVICE, loading, resetting);
    var after := Run(NEW_DEVICE, loading + resetting);
    assert TableAt(after, AddressTable) == after.address && TableAt(after, GroupObjectTable) == after.groupObject;
  }

  lemma {:induction false} RunApart(d: Device, a: seq<Event>, b: seq<Event>)
    ensures Run(d, a + b) == Run(Run(d, a), b)
    decreases |a|
  {
    if a == [] {
      EmptyIsUnit(b);
    } else {
      RunApart(Step(d, a[0]), a[1..], b);
      assert (a + b)[1..] == a[1..] + b;
    }
  }

  lemma RunThen(d: Device, es: seq<Event>, e: Event)
    ensures Run(d, es + [e]) == Step(Run(d, es), e)
  {
    RunApart(d, es, [e]);
    assert Run(Step(Run(d, es), e), []) == Step(Run(d, es), e);
  }

  lemma RunOfThree(d: Device, e1: Event, e2: Event, e3: Event)
    ensures Run(d, [e1, e2, e3]) == Step(Step(Step(d, e1), e2), e3)
  {
    assert [e1, e2, e3] == [e1] + [e2] + [e3];
    RunThen(d, [e1] + [e2], e3);
    RunThen(d, [e1], e2);
    assert [e1] == [] + [e1];
    RunThen(d, [], e1);
  }

  // ── What a table finds in its segment ───────────────────────────

  /** The event concerns neither the table nor the octets of its segment. */
  predicate Leaves(e: Event, w: Which, t: Table) {
    match e
    case LoadControl(index, _) => TableIndex(index) != Some(w)
    case MemoryWrite(address, data) => address + |data| <= t.offset || t.offset + t.size <= address
    case MasterReset(_) => false
  }

  predicate AllLeave(es: seq<Event>, w: Which, t: Table) {
    forall i :: 0 <= i < |es| ==> Leaves(es[i], w, t)
  }

  /** What the table would find in its segment. */
  function SegmentOctets(d: Device, w: Which): Octets
    requires Inside(TableAt(d, w), |d.memory|)
  {
    var t := TableAt(d, w);
    if t.size == 0 then [] else d.memory[t.offset..t.offset + t.size]
  }

  lemma FilledBehind(memory: Octets, fill: Option<Fill>)
    requires fill.Some? ==> fill.value.offset == |memory|
    ensures memory <= Filled(memory, fill)
  {
    var r := Filled(memory, fill);
    assert |memory| <= |r| && forall i :: 0 <= i < |memory| ==> r[i] == memory[i];
  }

  lemma WrittenElsewhere(memory: Octets, address: nat, data: Octets, start: nat, end: nat)
    requires start <= end <= |memory| && (address + |data| <= start || end <= address)
    ensures end <= |Written(memory, address, data)|
    ensures Written(memory, address, data)[start..end] == memory[start..end]
  {
    var g := Grown(memory, address + |data|);
    assert forall i :: 0 <= i < |memory| ==> g[i] == memory[i];
  }

  /** Filling or writing elsewhere changes no octet of a segment. */
  lemma StepLeavesSegment(d: Device, e: Event, w: Which)
    requires |d.memory| <= MAX_MEMORY_SIZE && Inside(TableAt(d, w), |d.memory|) && Leaves(e, w, TableAt(d, w))
    ensures var after := Step(d, e);
            && |after.memory| <= MAX_MEMORY_SIZE
            && TableAt(after, w) == TableAt(d, w) && Inside(TableAt(after, w), |after.memory|)
            && SegmentOctets(after, w) == SegmentOctets(d, w)
  {
    match e
    case LoadControl(index, data) =>
      if TableIndex(index).Some? {
        ControlLeavesSegment(d, TableIndex(index).value, data, w);
      }
    case MemoryWrite(address, data) => WriteLeavesSegment(d, address, data, w);
  }

  lemma WriteLeavesSegment(d: Device, address: nat, data: Octets, w: Which)
    requires |d.memory| <= MAX_MEMORY_SIZE && Inside(TableAt(d, w), |d.memory|)
    requires Leaves(MemoryWrite(address, data), w, TableAt(d, w))
    ensures var after := d.(memory := Written(d.memory, address, data));
            && |after.memory| <= MAX_MEMORY_SIZE
            && TableAt(after, w) == TableAt(d, w) && Inside(TableAt(after, w), |after.memory|)
            && SegmentOctets(after, w) == SegmentOctets(d, w)
  {
    var t := TableAt(d, w);
    if t.size > 0 {
      WrittenElsewhere(d.memory, address, data, t.offset, t.offset + t.size);
    }
  }

  lemma ControlLeavesSegment(d: Device, v: Which, data: Octets, w: Which)
    requires |d.memory| <= MAX_MEMORY_SIZE && Inside(TableAt(d, w), |d.memory|) && v != w
    ensures var after := Controlled(d, v, data);
            && |after.memory| <= MAX_MEMORY_SIZE
            && TableAt(after, w) == TableAt(d, w) && Inside(TableAt(after, w), |after.memory|)
            && SegmentOctets(after, w) == SegmentOctets(d, w)
  {
    var s := OnLoadEvent(TableAt(d, v), data, |d.memory|);
    SegmentAfter(TableAt(d, v), data, |d.memory|);
    TableReplaced(d, v, s.table, Filled(d.memory, s.fill));
    FilledIsLonger(d.memory, s.fill);
    FilledBehind(d.memory, s.fill);
    SameSegment(d, Controlled(d, v, data), w);
  }

  lemma SameSegment(d: Device, after: Device, w: Which)
    requires Inside(TableAt(d, w), |d.memory|) && TableAt(after, w) == TableAt(d, w) && d.memory <= after.memory
    ensures Inside(TableAt(after, w), |after.memory|) && SegmentOctets(after, w) == SegmentOctets(d, w)
  {
  }

  lemma {:induction false} RunLeavesSegment(d: Device, es: seq<Event>, w: Which)
    requires |d.memory| <= MAX_MEMORY_SIZE && Inside(TableAt(d, w), |d.memory|) && AllLeave(es, w, TableAt(d, w))
    ensures var after := Run(d, es);
            && |after.memory| <= MAX_MEMORY_SIZE
            && TableAt(after, w) == TableAt(d, w) && Inside(TableAt(after, w), |after.memory|)
            && SegmentOctets(after, w) == SegmentOctets(d, w)
    decreases |es|
  {
    if es != [] {
      assert Leaves(es[0], w, TableAt(d, w));
      StepLeavesSegment(d, es[0], w);
      forall i | 0 <= i < |es[1..]| ensures Leaves(es[1..][i], w, TableAt(d, w)) {
        assert es[1..][i] == es[i + 1];
      }
      RunLeavesSegment(Step(d, es[0]), es[1..], w);
    }
  }

  /** A new segment is behind everything that was there, and filled. */
  lemma AllocationFills(d: Device, w: Which, data: Octets)
    requires Allocates(TableAt(d, w), data) && data[6] == ALC_FILL_ENABLED
    requires |d.memory| + SizeIn(data) <= MAX_MEMORY_SIZE
    ensures var after := Controlled(d, w, data);
            && TableAt(after, w) == TableAt(d, w).(offset := |d.memory|, size := SizeIn(data))
            && after.memory == d.memory + Repeated(data[7], SizeIn(data))
  {
    SegmentAfter(TableAt(d, w), data, |d.memory|);
    var s := OnLoadEvent(TableAt(d, w), data, |d.memory|);
    TableReplaced(d, w, s.table, Filled(d.memory, s.fill));
    FilledAtEnd(d.memory, SizeIn(data), data[7]);
  }

  lemma FilledAtEnd(memory: Octets, n: nat, octet: bv8)
    requires |memory| + n <= MAX_MEMORY_SIZE
    ensures Filled(memory, Some(Fill(|memory|, n, octet))) == memory + Repeated(octet, n)
  {
    var g := Grown(memory, |memory| + n);
    assert g[..|memory|] == memory && g[|memory| + n..] == [];
  }

  /** The table can be loaded without being unloaded first. */
  predicate Startable(t: Table) {
    t.state == Unloaded || t.state == Loading || t.state == Loaded
  }

  /** The first two events of a download. */
  function Prepared(d: Device, index: nat, data: Octets): Device {
    Step(Step(d, LoadControl(index, [1])), LoadControl(index, data))
  }

  lemma PreparedIs(d: Device, index: nat, w: Which, data: Octets)
    requires TableIndex(index) == Some(w) && Startable(TableAt(d, w))
    requires Allocates(TableAt(d, w).(state := Loading), data) && data[6] == ALC_FILL_ENABLED
    requires |d.memory| + SizeIn(data) <= MAX_MEMORY_SIZE
    ensures var loading := Prepared(d, index, data);
            && TableAt(loading, w) == TableAt(d, w).(state := Loading, offset := |d.memory|, size := SizeIn(data))
            && |loading.memory| == |d.memory| + SizeIn(data)
  {
    var started := Step(d, LoadControl(index, [1]));
    assert started.memory == d.memory && TableAt(started, w).state == Loading;
    AllocationFills(started, w, data);
  }

  /** Writing a whole segment makes it hold these octets. */
  lemma WriteSegment(d: Device, w: Which, octets: Octets)
    requires |d.memory| <= MAX_MEMORY_SIZE && Inside(TableAt(d, w), |d.memory|)
    requires TableAt(d, w).size == |octets| > 0
    ensures var after := Step(d, MemoryWrite(TableAt(d, w).offset, octets));
            && TableAt(after, w) == TableAt(d, w) && |after.memory| == |d.memory|
            && SegmentOctets(after, w) == octets
  {
  }

  /**
   A download. A table that is started, reserves a segment with a fill that fits, has that segment
   written at its table reference, and is completed, is loaded with exactly the octets written;
   whatever happens to other tables and elsewhere in the memory meanwhile.
   */
  lemma DownloadReadsBack(d: Device, index: nat, w: Which, data: Octets, octets: Octets,
                          meanwhile: seq<Event>, later: seq<Event>)
    requires |d.memory| <= MAX_MEMORY_SIZE && TableIndex(index) == Some(w) && Startable(TableAt(d, w))
    requires Allocates(TableAt(d, w).(state := Loading), data) && data[6] == ALC_FILL_ENABLED
    requires |d.memory| + SizeIn(data) <= MAX_MEMORY_SIZE && SizeIn(data) == |octets| > 0
    requires var t := TableAt(Prepared(d, index, data), w); AllLeave(meanwhile, w, t) && AllLeave(later, w, t)
    ensures var loading := Prepared(d, index, data);
            var before := Run(loading, meanwhile);
            var written := Step(before, MemoryWrite(TableReference(TableAt(before, w)), octets));
            var done := Step(Run(written, later), LoadControl(index, [2]));
            && OnLoadEvent(TableAt(Run(written, later), w), [2], |done.memory|).becameLoaded
            && TableAt(done, w).state == Loaded && Data(TableAt(done, w), done.memory) == octets
  {
    var loading := Prepared(d, index, data);
    PreparedIs(d, index, w, data);
    RunLeavesSegment(loading, meanwhile, w);
    var before := Run(loading, meanwhile);
    WriteSegment(before, w, octets);
    var written := Step(before, MemoryWrite(TableReference(TableAt(before, w)), octets));
    RunLeavesSegment(written, later, w);
    Completed(Run(written, later), index, w);
  }

  /** A table that was unloaded can be downloaded, whatever happened to it before. */
  lemma UnloadedCanStart(d: Device, index: nat, w: Which)
    requires TableIndex(index) == Some(w) && TableAt(d, w).state in {Unloaded, Loading, Loaded, Failed}
    ensures var after := Step(d, LoadControl(index, [4]));
            Startable(TableAt(after, w)) && after.memory == d.memory
  {
    StartsAfterUnload(TableAt(d, w), |d.memory|);
    var s := OnLoadEvent(TableAt(d, w), [4], |d.memory|);
    TableReplaced(d, w, s.table, Filled(d.memory, s.fill));
  }

  /** Exactly the object indexes 1 to 4 are those of tables. */
  lemma IndexesOfTables(index: nat)
    ensures TableIndex(index)
         == if index == 1 then Some(AddressTable) else if index == 2 then Some(AssociationTable)
            else if index == 3 then Some(GroupObjectTable) else if index == 4 then Some(ApplicationProgram) else None
  {
  }

  lemma Completed(d: Device, index: nat, w: Which)
    requires TableIndex(index) == Some(w) && TableAt(d, w).state == Loading && TableAt(d, w).size > 0
    requires Inside(TableAt(d, w), |d.memory|)
    ensures var done := Step(d, LoadControl(index, [2]));
            && OnLoadEvent(TableAt(d, w), [2], |done.memory|).becameLoaded
            && TableAt(done, w).state == Loaded && Data(TableAt(done, w), done.memory) == SegmentOctets(d, w)
  {
  }

  // ── The device's own form ───────────────────────────────────────

  class Controller {
    var memoryArea: Octets
    var addrTableObject: TableObject
    var assocTableObject: TableObject
    var groupObjectTableObject: TableObject
    var appProgramObject: TableObject

    ghost predicate Valid()
      reads this
    {
      && addrTableObject != assocTableObject && addrTableObject != groupObjectTableObject
      && addrTableObject != appProgramObject && assocTableObject != groupObjectTableObject
      && assocTableObject != appProgramObject && groupObjectTableObject != appProgramObject
    }

    ghost function Repr(): set<object>
      reads this
    {
      {this, addrTableObject, assocTableObject, groupObjectTableObject, appProgramObject}
    }

    ghost function Value(): Device
      reads this, addrTableObject, assocTableObject, groupObjectTableObject, appProgramObject
    {
      Device(memoryArea, addrTableObject.Value(), assocTableObject.Value(),
             groupObjectTableObject.Value(), appProgramObject.Value())
    }

    constructor ()
      ensures Valid() && fresh(Repr())
      ensures Value() == NEW_DEVICE
    {
      memoryArea := [];
      addrTableObject := new TableObject(false);
      assocTableObject := new TableObject(false);
      groupObjectTableObject := new TableObject(true);
      appProgramObject := new TableObject(false);
    }

    /** The table object at an object index. */
    function TableObjectAt(w: Which): TableObject
      reads this
    {
      match w
      case AddressTable => addrTableObject
      case AssociationTable => assocTableObject
      case GroupObjectTable => groupObjectTableObject
      case ApplicationProgram => appProgramObject
    }

    /** A write to the load state control of an object; says whether a table has become loaded. */
    method WriteLoadStateControl(objectIndex: nat, data: Octets) returns (loaded: bool)
      requires Valid()
      modifies Repr()
      ensures Valid() && Repr() == old(Repr())
      ensures Value() == Step(old(Value()), LoadControl(objectIndex, data))
      ensures loaded <==> TableIndex(objectIndex).Some?
                          && OnLoadEvent(TableAt(old(Value()), TableIndex(objectIndex).value), data,
                                         |old(Value()).memory|).becameLoaded
    {
      var which := TableIndex(objectIndex);
      if which.None? {
        return false;
      }
      var fill;
      loaded, fill := TableObjectAt(which.value).HandleLoadEvent(data, |memoryArea|);
      ApplyFill(fill);
    }

    method ApplyFill(fill: Option<Fill>)
      modifies this`memoryArea
      ensures memoryArea == Filled(old(memoryArea), fill)
    {
      if fill.Some? {
        var start := fill.value.offset;
        var end := start + fill.value.size;
        if end > MAX_MEMORY_SIZE {
          return;
        }
        if end > |memoryArea| {
          memoryArea := Grown(memoryArea, end);
        }
        memoryArea := memoryArea[..start] + Repeated(fill.value.octet, fill.value.size) + memoryArea[end..];
      }
    }

    method WriteToMemory(addr: nat, data: Octets) returns (ok: bool)
      requires Valid()
      modifies this`memoryArea
      ensures Valid() && Value() == Step(old(Value()), MemoryWrite(addr, data))
      ensures ok <==> addr + |data| <= MAX_MEMORY_SIZE
    {
      var needed := addr + |data|;
      if needed > MAX_MEMORY_SIZE {
        return false;
      }
      if needed > |memoryArea| {
        memoryArea := Grown(memoryArea, needed);
      }
      memoryArea := memoryArea[..addr] + data + memoryArea[needed..];
      return true;
    }

    method IsConfigured() returns (configured: bool)
      ensures configured == Configured(Value())
    {
      configured := addrTableObject.state == Loaded && assocTableObject.state == Loaded
        && groupObjectTableObject.state == Loaded && appProgramObject.state == Loaded;
    }

    method ResetLinkTables()
      requires Valid()
      modifies this
      ensures Valid() && Value() == LinksReset(old(Value())) && fresh(Repr() - old(Repr()))
    {
      addrTableObject := new TableObject(false);
      assocTableObject := new TableObject(false);
    }

    method ApplyMasterReset(eraseCode: nat)
      requires Valid()
      modifies this
      ensures Valid() && Value() == Step(old(Value()), MasterReset(eraseCode)) && fresh(Repr() - old(Repr()))
    {
      if eraseCode == ERASE_RESET_LINKS {
        ResetLinkTables();
      } else if eraseCode == ERASE_RESET_AP || eraseCode == ERASE_RESET_PARAM {
        appProgramObject := new TableObject(false);
      } else if ErasesAll(eraseCode) {
        ResetLinkTables();
        appProgramObject := new TableObject(false);
        memoryArea := [];
      }
    }
  }
}

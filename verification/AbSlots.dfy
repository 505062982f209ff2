/** The A/B slot manager of kernel/abmgr.c as a persistent state machine: every table write may
    fail or be the moment the power is cut. */
module AbSlots {
  import opened Bytes
  import opened Errno
  import opened Limits
  import opened Wrappers
  import opened AbTable

  const AB_MAX_ATTEMPTS: nat := 3

  /** What becomes of one sector write. */
  datatype Io = Done | Failed | CutBefore | CutAfter

  /** What a call returns, or that the power went. */
  datatype Out = Ret(r: int) | Lost

  /** What the caller sealed a slot with, and the payload's checksum. */
  datatype Payload = Payload(crc: nat, seqNo: nat, lba: nat, nsect: nat)

  /** What has happened to each slot: whether and with what it was sealed, the confirmations since,
      and the boots counted since it was last sealed, confirmed or activated. */
  datatype Hist = Hist(sealed: seq<bool>, payloads: seq<Payload>, confirms: seq<nat>, tries: seq<nat>)

  /** The table sector and the manager's memory.  diskHist belongs to the table on disk, memHist
      to the one in memory. */
  datatype Sys = Sys(disk: Sector, diskHist: Hist, loaded: bool, tbl: Table, memHist: Hist, active: int, rollbacks: nat)

  const NO_PAYLOAD: Payload := Payload(0, 0, 0, 0)
  const NO_HIST: Hist := Hist([false, false], [NO_PAYLOAD, NO_PAYLOAD], [0, 0], [0, 0])
  const EMPTY_SLOT: Slot := Slot(0, 0, 0, 0, 0, 0, 0, 0, 0)
  const EMPTY_TABLE: Table := Table(AB_MAGIC, AB_TABLE_VERSION, [EMPTY_SLOT, EMPTY_SLOT], 0, 0)

  predicate HistShaped(h: Hist) { |h.sealed| == 2 && |h.payloads| == 2 && |h.confirms| == 2 && |h.tries| == 2 }

  function SealedNow(h: Hist, i: nat, p: Payload): (r: Hist)
    requires HistShaped(h) && i < 2
    ensures HistShaped(r)
  {
    Hist(h.sealed[i := true], h.payloads[i := p], h.confirms[i := 0], h.tries[i := 0])
  }

  function ConfirmedNow(h: Hist, i: nat): (r: Hist)
    requires HistShaped(h) && i < 2
    ensures HistShaped(r)
  {
    h.(confirms := h.confirms[i := h.confirms[i] + 1], tries := h.tries[i := 0])
  }

  function BootedNow(h: Hist, i: nat): (r: Hist)
    requires HistShaped(h) && i < 2
    ensures HistShaped(r)
  {
    h.(tries := h.tries[i := h.tries[i] + 1])
  }

  function ActivatedNow(h: Hist, i: nat): (r: Hist)
    requires HistShaped(h) && i < 2
    ensures HistShaped(r)
  {
    h.(tries := h.tries[i := 0])
  }

  predicate Shaped(s: Sys) { |s.tbl.slots| == 2 && -1 <= s.active <= 1 && HistShaped(s.memHist) && HistShaped(s.diskHist) }

  // ---- the operations -----------------------------------------------------------------------

  function Down(s: Sys): Sys { s.(loaded := false) }

  /** table_write */
  function Write(s: Sys, io: Io): (r: (Sys, Out))
    requires Shaped(s)
    ensures Shaped(r.0)
  {
    var t := s.tbl.(crc := TableCrc(s.tbl));
    var w := s.(tbl := t, disk := Image(t), diskHist := s.memHist);
    match io
    case Done => (w, Ret(0))
    case Failed => (s.(tbl := t), Ret(EIO))
    case CutBefore => (Down(s.(tbl := t)), Lost)
    case CutAfter => (Down(w), Lost)
  }

  function ActiveOf(t: Table): int
    requires |t.slots| == 2
  {
    if t.slots[0].active != 0 then 0 else if t.slots[1].active != 0 then 1 else -1
  }

  /** abmgr_attach; the read of the table sector may fail */
  function Attach(s: Sys, readOk: bool, io: Io): (r: (Sys, Out))
    requires Shaped(s)
    ensures Shaped(r.0)
  {
    var t := Decode(s.disk);
    if readOk && Valid(t) then
      (s.(loaded := true, tbl := t, memHist := s.diskHist, active := ActiveOf(t), rollbacks := t.rollbacks), Ret(0))
    else
      var (w, out) := Write(s.(loaded := false, tbl := EMPTY_TABLE, memHist := NO_HIST), io);
      if out == Ret(0) then (w.(loaded := true, active := -1, rollbacks := 0), out) else (w, out)
  }

  function SetSlot(s: Sys, i: nat, slot: Slot): Sys
    requires Shaped(s) && i < 2
  {
    s.(tbl := s.tbl.(slots := s.tbl.slots[i := slot]))
  }

  /** abmgr_slot_seal; crc is the payload's checksum, None when the payload cannot be read */
  function Seal(s: Sys, idx: nat, lba: nat, nsect: nat, seqNo: nat, crc: Option<nat>, io: Io): (r: (Sys, Out))
    requires Shaped(s)
    ensures Shaped(r.0)
  {
    if !s.loaded || idx >= 2 || nsect == 0 then (s, Ret(EINVAL))
    else if crc.None? then (s, Ret(EIO))
    else
      var slot := s.tbl.slots[idx].(crc := crc.value, seqNo := seqNo, lba := lba, nsect := nsect,
                                    attempts := 0, confirmed := 0, active := 0, valid := 1);
      var h := SealedNow(s.memHist, idx, Payload(crc.value, seqNo, lba, nsect));
      Write(SetSlot(s, idx, slot).(memHist := h), io)
  }

  /** abmgr_boot_begin */
  function BootBegin(s: Sys, io: Io): (r: (Sys, Out))
    requires Shaped(s)
    ensures Shaped(r.0)
  {
    if !s.loaded || s.active < 0 then (s, Ret(ENODEV))
    else
      var slot := s.tbl.slots[s.active];
      var slot' := if slot.attempts < 255 then slot.(attempts := slot.attempts + 1) else slot;
      Write(SetSlot(s, s.active, slot').(memHist := BootedNow(s.memHist, s.active)), io)
  }

  /** abmgr_confirm */
  function Confirm(s: Sys, io: Io): (r: (Sys, Out))
    requires Shaped(s)
    ensures Shaped(r.0)
  {
    if !s.loaded || s.active < 0 then (s, Ret(ENODEV))
    else
      var slot := s.tbl.slots[s.active];
      var slot' := slot.(confirmed := 1, attempts := 0, seqNo := (slot.seqNo + 1) % TWO32);
      Write(SetSlot(s, s.active, slot').(memHist := ConfirmedNow(s.memHist, s.active)), io)
  }

  /** The slot abmgr_switch would bring up. */
  function SwitchTo(s: Sys): (r: Option<nat>)
    requires Shaped(s)
    ensures r.Some? ==> r.value < 2 && r.value != s.active
  {
    if s.active < 0 then
      if s.tbl.slots[0].valid != 0 then Some(0) else if s.tbl.slots[1].valid != 0 then Some(1) else None
    else if s.tbl.slots[1 - s.active].valid != 0 then Some(1 - s.active) else None
  }

  /** abmgr_switch */
  function Switch(s: Sys, io: Io): (r: (Sys, Out))
    requires Shaped(s)
    ensures Shaped(r.0)
  {
    if !s.loaded then (s, Ret(ENODEV))
    else
      var to := SwitchTo(s);
      if to.None? then (s, Ret(EINVAL))
      else
        var off := if s.active < 0 then s else SetSlot(s, s.active, s.tbl.slots[s.active].(active := 0));
        var on := SetSlot(off, to.value, off.tbl.slots[to.value].(active := 1, attempts := 0));
        Write(on.(active := to.value, memHist := ActivatedNow(s.memHist, to.value)), io)
  }

  /** abmgr_evaluate finds the active slot unconfirmed and out of attempts. */
  predicate Exhausted(s: Sys)
    requires Shaped(s)
  {
    s.loaded && s.active >= 0 && s.tbl.slots[s.active].confirmed == 0 && s.tbl.slots[s.active].attempts as int >= AB_MAX_ATTEMPTS
  }

  /** A 32-bit counter's increment. */
  function OneMore(n: nat): nat { if n == TWO32 - 1 then 0 else n + 1 }

  /** abmgr_evaluate; a failed first write is ignored */
  function Evaluate(s: Sys, io1: Io, io2: Io): (r: (Sys, Out))
    requires Shaped(s)
    ensures Shaped(r.0)
  {
    if !s.loaded || s.active < 0 then (s, Ret(ENODEV))
    else if !Exhausted(s) then (s, Ret(0))
    else
      var n := OneMore(s.rollbacks);
      var (w, out) := Write(s.(rollbacks := n, tbl := s.tbl.(rollbacks := n)), io1);
      if out == Lost then (w, Lost)
      else
        var (u, r) := Switch(w, io2);
        (u, if r.Ret? && r.r >= 0 then Ret(1) else r)
  }

  /** abmgr_active */
  function Active(s: Sys): int { if s.loaded then s.active else -1 }

  // ---- the invariant ---------------------------------------------------------------------------------

  /** At most one slot is active, and an active slot is sealed. */
  predicate TableOk(t: Table)
    requires |t.slots| == 2
  {
    && (t.slots[0].active == 0 || t.slots[1].active == 0)
    && (t.slots[0].active != 0 ==> t.slots[0].valid != 0) && (t.slots[1].active != 0 ==> t.slots[1].valid != 0)
  }

  /** The slot says what happened: it is valid exactly when it was sealed, holds what it was sealed
      with and its sequence number plus the confirmations since, is confirmed exactly when there
      was one, and counts the boots up to 255. */
  predicate SlotTells(slot: Slot, sealed: bool, p: Payload, confirms: nat, tries: nat) {
    && (slot.valid != 0 <==> sealed) && (slot.confirmed != 0 <==> confirms > 0) && slot.attempts as int == Min(255, tries)
    && (sealed ==> slot.crc == p.crc && slot.lba == p.lba && slot.nsect == p.nsect && slot.seqNo == (p.seqNo + confirms) % TWO32)
  }

  predicate HistOk(t: Table, h: Hist)
    requires |t.slots| == 2
  {
    && HistShaped(h)
    && forall i :: 0 <= i < 2 ==> SlotTells(t.slots[i], h.sealed[i], h.payloads[i], h.confirms[i], h.tries[i])
  }

  predicate DiskOk(s: Sys) {
    var t := Decode(s.disk);
    Valid(t) ==> TableOk(t) && HistOk(t, s.diskHist)
  }

  predicate TblOk(s: Sys) {
    && Shaped(s) && Fits(s.tbl) && s.tbl.magic == AB_MAGIC && s.tbl.version == AB_TABLE_VERSION
    && TableOk(s.tbl) && HistOk(s.tbl, s.memHist)
  }

  predicate MemOk(s: Sys) { TblOk(s) && s.active == ActiveOf(s.tbl) && s.rollbacks == s.tbl.rollbacks }

  predicate Inv(s: Sys) {
    Shaped(s) && DiskOk(s) && (s.loaded ==> MemOk(s) && Valid(Decode(s.disk)))
  }

  datatype Event =
    | AttachEv(readOk: bool, io: Io)
    | SealEv(idx: nat, lba: nat, nsect: nat, seqNo: nat, crc: Option<nat>, io: Io)
    | BootEv(io: Io)
    | ConfirmEv(io: Io)
    | SwitchEv(io: Io)
    | EvaluateEv(io1: Io, io2: Io)
    | CutEv

  /** Callers pass values of the C types and do not reseal the active slot. */
  predicate Enabled(s: Sys, e: Event) {
    e.SealEv? ==> e.lba < TWO64 && e.nsect < TWO64 && e.seqNo < TWO32 && (e.crc.Some? ==> e.crc.value < TWO32) && (s.loaded ==> e.idx != s.active)
  }

  function Step(s: Sys, e: Event): (r: (Sys, Out))
    requires Shaped(s)
    ensures Shaped(r.0)
  {
    match e
    case AttachEv(readOk, io) => Attach(s, readOk, io)
    case SealEv(idx, lba, nsect, seqNo, crc, io) => Seal(s, idx, lba, nsect, seqNo, crc, io)
    case BootEv(io) => BootBegin(s, io)
    case ConfirmEv(io) => Confirm(s, io)
    case SwitchEv(io) => Switch(s, io)
    case EvaluateEv(io1, io2) => Evaluate(s, io1, io2)
    case CutEv => (Down(s), Lost)
  }

  lemma SealedTable(t: Table)
    requires Fits(t) && t.magic == AB_MAGIC && t.version == AB_TABLE_VERSION
    ensures var u := t.(crc := TableCrc(t)); Fits(u) && Decode(Image(u)) == u && Valid(u)
  {
    var u := t.(crc := TableCrc(t));
    assert Body(u) == Body(t);
    ReadBack(u);
  }

  /** The flags do not depend on the CRC or the rollback counter. */
  lemma FlagsOnly(t: Table, u: Table, h: Hist)
    requires |t.slots| == 2 && u.slots == t.slots
    ensures TableOk(u) == TableOk(t) && HistOk(u, h) == HistOk(t, h) && ActiveOf(u) == ActiveOf(t)
  {
  }

  /** Writing a table that is in order: the disk keeps a table that is in order whatever happens. */
  lemma WriteKeeps(s: Sys, io: Io)
    requires TblOk(s) && DiskOk(s)
    ensures var (w, out) := Write(s, io);
      && TblOk(w) && DiskOk(w) && w.active == s.active && w.rollbacks == s.rollbacks && w.tbl == s.tbl.(crc := w.tbl.crc)
      && w.memHist == s.memHist && (w.loaded ==> s.loaded) && (out == Lost ==> !w.loaded) && (out == Ret(0) <==> io == Done)
      && (Valid(Decode(s.disk)) || io == Done ==> Valid(Decode(w.disk)))
  {
    SealedTable(s.tbl);
    FlagsOnly(s.tbl, s.tbl.(crc := TableCrc(s.tbl)), s.memHist);
    hide Image, Decode, Body, TableCrc, Valid, TableOk, HistOk, ActiveOf;
  }

  lemma WriteInv(s: Sys, io: Io)
    requires MemOk(s) && DiskOk(s) && Valid(Decode(s.disk))
    ensures Inv(Write(s, io).0) && Valid(Decode(Write(s, io).0.disk))
  {
    WriteKeeps(s, io);
    hide Image, Decode, Body, TableCrc, Valid, Write, HistOk, TableOk;
  }

  lemma EmptyOk(s: Sys)
    requires Shaped(s)
    ensures TblOk(s.(loaded := false, tbl := EMPTY_TABLE, memHist := NO_HIST)) && ActiveOf(EMPTY_TABLE) == -1
  {
  }

  lemma AttachFinds(s: Sys, readOk: bool, io: Io)
    requires Inv(s) && readOk && Valid(Decode(s.disk))
    ensures Inv(Attach(s, readOk, io).0) && Attach(s, readOk, io).0.disk == s.disk
  {
    hide Image, Body, Decode, TableCrc, Write, HistOk, TableOk, ActiveOf;
  }

  lemma AttachFormats(s: Sys, readOk: bool, io: Io)
    requires Inv(s) && !(readOk && Valid(Decode(s.disk)))
    ensures Inv(Attach(s, readOk, io).0)
    ensures Valid(Decode(s.disk)) ==> Valid(Decode(Attach(s, readOk, io).0.disk))
  {
    EmptyOk(s);
    hide Image, Body, Decode, Valid, TableCrc, HistOk, TableOk, ActiveOf, Write;
    WriteKeeps(s.(loaded := false, tbl := EMPTY_TABLE, memHist := NO_HIST), io);
  }

  lemma AttachKeeps(s: Sys, readOk: bool, io: Io)
    requires Inv(s)
    ensures Inv(Attach(s, readOk, io).0)
    ensures Valid(Decode(s.disk)) ==> Valid(Decode(Attach(s, readOk, io).0.disk))
  {
    hide Inv, Attach, Decode, Valid;
    if readOk && Valid(Decode(s.disk)) { AttachFinds(s, readOk, io); } else { AttachFormats(s, readOk, io); }
  }

  lemma SwitchKeeps(s: Sys, io: Io)
    requires Inv(s)
    ensures Inv(Switch(s, io).0)
    ensures Valid(Decode(s.disk)) ==> Valid(Decode(Switch(s, io).0.disk))
  {
    hide Image, Decode, Body, TableCrc, Write, Valid;
    if s.loaded && SwitchTo(s).Some? {
      var to := SwitchTo(s).value;
      var off := if s.active < 0 then s else SetSlot(s, s.active, s.tbl.slots[s.active].(active := 0));
      var on := SetSlot(off, to, off.tbl.slots[to].(active := 1, attempts := 0));
      WriteInv(on.(active := to, memHist := ActivatedNow(s.memHist, to)), io);
    }
  }

  /** The state of abmgr_evaluate before its first write. */
  function Counted(s: Sys): Sys {
    var n := OneMore(s.rollbacks);
    s.(rollbacks := n, tbl := s.tbl.(rollbacks := n))
  }

  lemma CountedOk(s: Sys)
    requires MemOk(s)
    ensures MemOk(Counted(s))
  {
    FlagsOnly(s.tbl, Counted(s).tbl, s.memHist);
    hide TableOk, HistOk, ActiveOf;
  }

  lemma EvaluateIs(s: Sys, io1: Io, io2: Io)
    requires Shaped(s) && Exhausted(s)
    ensures Shaped(Counted(s))
    ensures var (w, out) := Write(Counted(s), io1); var (u, r) := Switch(w, io2);
      Evaluate(s, io1, io2) == if out == Lost then (w, Lost) else (u, if r.Ret? && r.r >= 0 then Ret(1) else r)
  {
    hide Write, Switch;
  }

  lemma EvaluateKeeps(s: Sys, io1: Io, io2: Io)
    requires Inv(s)
    ensures Inv(Evaluate(s, io1, io2).0)
    ensures Valid(Decode(s.disk)) ==> Valid(Decode(Evaluate(s, io1, io2).0.disk))
  {
    if Exhausted(s) {
      CountedOk(s);
      EvaluateIs(s, io1, io2);
      hide Image, Decode, Body, TableCrc, Write, Valid, Switch, TableOk, HistOk, ActiveOf, Evaluate, Counted;
      WriteInv(Counted(s), io1);
      SwitchKeeps(Write(Counted(s), io1).0, io2);
    } else {
      hide Decode, Valid, TableOk, HistOk;
    }
  }

  lemma SealKeeps(s: Sys, idx: nat, lba: nat, nsect: nat, seqNo: nat, crc: Option<nat>, io: Io)
    requires Inv(s) && Enabled(s, SealEv(idx, lba, nsect, seqNo, crc, io))
    ensures Inv(Seal(s, idx, lba, nsect, seqNo, crc, io).0)
    ensures Valid(Decode(s.disk)) ==> Valid(Decode(Seal(s, idx, lba, nsect, seqNo, crc, io).0.disk))
  {
    hide Image, Decode, Body, TableCrc, Write, Valid;
    if s.loaded && idx < 2 && nsect != 0 && crc.Some? {
      var slot := s.tbl.slots[idx].(crc := crc.value, seqNo := seqNo, lba := lba, nsect := nsect, attempts := 0, confirmed := 0, active := 0, valid := 1);
      var h := SealedNow(s.memHist, idx, Payload(crc.value, seqNo, lba, nsect));
      WriteInv(SetSlot(s, idx, slot).(memHist := h), io);
    }
  }

  lemma BootKeeps(s: Sys, io: Io)
    requires Inv(s)
    ensures Inv(BootBegin(s, io).0)
    ensures Valid(Decode(s.disk)) ==> Valid(Decode(BootBegin(s, io).0.disk))
  {
    hide Image, Decode, Body, TableCrc, Write, Valid;
    if s.loaded && s.active >= 0 {
      var slot := s.tbl.slots[s.active];
      var slot' := if slot.attempts < 255 then slot.(attempts := slot.attempts + 1) else slot;
      WriteInv(SetSlot(s, s.active, slot').(memHist := BootedNow(s.memHist, s.active)), io);
    }
  }

  lemma ConfirmKeeps(s: Sys, io: Io)
    requires Inv(s)
    ensures Inv(Confirm(s, io).0)
    ensures Valid(Decode(s.disk)) ==> Valid(Decode(Confirm(s, io).0.disk))
  {
    hide Image, Decode, Body, TableCrc, Write, Valid;
    if s.loaded && s.active >= 0 {
      var slot := s.tbl.slots[s.active];
      var slot' := slot.(confirmed := 1, attempts := 0, seqNo := (slot.seqNo + 1) % TWO32);
      WriteInv(SetSlot(s, s.active, slot').(memHist := ConfirmedNow(s.memHist, s.active)), io);
    }
  }

  /** Every call, whatever becomes of its writes, keeps the invariant, and a table once valid on
      disk stays valid. */
  lemma StepKeeps(s: Sys, e: Event)
    requires Inv(s) && Enabled(s, e)
    ensures Inv(Step(s, e).0)
    ensures Valid(Decode(s.disk)) ==> Valid(Decode(Step(s, e).0.disk))
  {
    hide Image, Decode, Valid, Attach, Seal, BootBegin, Confirm, Switch, Evaluate;
    match e
    case AttachEv(readOk, io) => AttachKeeps(s, readOk, io);
    case SealEv(idx, lba, nsect, seqNo, crc, io) => SealKeeps(s, idx, lba, nsect, seqNo, crc, io);
    case BootEv(io) => BootKeeps(s, io);
    case ConfirmEv(io) => ConfirmKeeps(s, io);
    case SwitchEv(io) => SwitchKeeps(s, io);
    case EvaluateEv(io1, io2) => EvaluateKeeps(s, io1, io2);
    case CutEv =>
  }

  // ---- runs ---------------------------------------------------------------------------------------------

  /** Each state follows from the one before (Shaped: the two slots a step looks at exist). */
  ghost predicate Steps(trace: seq<Sys>, events: seq<Event>) {
    && |trace| == |events| + 1
    && forall i :: 0 <= i < |events| ==> Shaped(trace[i]) && Enabled(trace[i], events[i]) && trace[i + 1] == Step(trace[i], events[i]).0
  }

  /** A run from any disk that holds no table, or one that is in order. */
  ghost predicate Run(trace: seq<Sys>, events: seq<Event>) {
    Steps(trace, events) && Inv(trace[0]) && !trace[0].loaded
  }

  lemma {:induction false} RunKeeps(trace: seq<Sys>, events: seq<Event>, j: nat, i: nat)
    requires Run(trace, events) && j <= i < |trace|
    ensures Inv(trace[i]) && (Valid(Decode(trace[j].disk)) ==> Valid(Decode(trace[i].disk)))
    decreases i
  {
    hide Inv, Step, Decode, Valid;
    if i > 0 {
      RunKeeps(trace, events, if j < i then j else i - 1, i - 1);
      StepKeeps(trace[i - 1], events[i - 1]);
    }
  }

  /** Wherever the power is cut, attaching again finds a valid table once there was one, with at
      most one active slot; that slot is sealed and is the one abmgr_active reports. */
  lemma SurvivesPowerCuts(trace: seq<Sys>, events: seq<Event>, j: nat, i: nat, io: Io)
    requires Run(trace, events) && j <= i < |trace| && Valid(Decode(trace[j].disk))
    ensures Shaped(trace[i])
    ensures var t := Decode(trace[i].disk); var (s, out) := Attach(trace[i], true, io);
      && Valid(t) && out == Ret(0) && s.loaded && s.tbl == t && s.rollbacks == t.rollbacks
      && (t.slots[0].active == 0 || t.slots[1].active == 0)
      && (if Active(s) == -1 then t.slots[0].active == 0 && t.slots[1].active == 0
          else 0 <= Active(s) <= 1 && t.slots[Active(s)].active != 0 && t.slots[Active(s)].valid != 0)
  {
    RunKeeps(trace, events, j, i);
    hide Decode, Valid;
  }

  /** At every moment of a run the manager reports the one active slot of its table, and it is sealed. */
  lemma ActiveIsSealed(trace: seq<Sys>, events: seq<Event>, i: nat)
    requires Run(trace, events) && i < |trace| && trace[i].loaded
    ensures var s := trace[i];
      && Shaped(s) && (s.tbl.slots[0].active == 0 || s.tbl.slots[1].active == 0)
      && (forall k :: 0 <= k < 2 ==> (s.tbl.slots[k].active != 0 <==> Active(s) == k))
      && (Active(s) >= 0 ==> s.tbl.slots[Active(s)].valid != 0)
  {
    RunKeeps(trace, events, 0, i);
    hide Run, Decode, Valid, HistOk, Fits, Step;
    ActiveFacts(trace[i]);
  }

  lemma ActiveFacts(s: Sys)
    requires Shaped(s) && TableOk(s.tbl) && s.active == ActiveOf(s.tbl)
    ensures s.tbl.slots[0].active == 0 || s.tbl.slots[1].active == 0
    ensures forall k :: 0 <= k < 2 ==> (s.tbl.slots[k].active != 0 <==> s.active == k)
    ensures s.active >= 0 ==> s.tbl.slots[s.active].valid != 0
  {
  }

  // ---- evaluate -------------------------------------------------------------------------------------------

  /** abmgr_evaluate rolls back exactly when the active slot is unconfirmed since it was sealed, has
      had three boots since it was sealed or activated, the other slot is sealed, and the write goes through. */
  lemma EvaluateExactly(s: Sys, io1: Io, io2: Io)
    requires Inv(s)
    ensures var (u, out) := Evaluate(s, io1, io2);
      out == Ret(1) <==>
      && s.loaded && s.active >= 0 && s.memHist.confirms[s.active] == 0 && s.memHist.tries[s.active] >= AB_MAX_ATTEMPTS
      && s.memHist.sealed[1 - s.active] && (io1 == Done || io1 == Failed) && io2 == Done
    ensures var (u, out) := Evaluate(s, io1, io2);
      out == Ret(1) ==> u.active == 1 - s.active && u.memHist.tries[u.active] == 0 && u.rollbacks == OneMore(s.rollbacks) && u.tbl.rollbacks == u.rollbacks
  {
    hide Image, Decode, Body, TableCrc, Valid;
    if s.loaded && s.active >= 0 {
      assert s.tbl.slots[s.active].active != 0;
      assert SlotTells(s.tbl.slots[s.active], s.memHist.sealed[s.active], s.memHist.payloads[s.active], s.memHist.confirms[s.active], s.memHist.tries[s.active]);
      assert Exhausted(s) <==> s.memHist.confirms[s.active] == 0 && s.memHist.tries[s.active] >= AB_MAX_ATTEMPTS;
    }
  }

  // ---- the rollback counter ---------------------------------------------------------------------------------

  function OnDisk(s: Sys): nat { Decode(s.disk).rollbacks }

  predicate Lands(io: Io) { io == Done || io == CutAfter }

  /** The durable counter does not run ahead of the one in memory. */
  predicate NotBehind(s: Sys) { s.loaded ==> OnDisk(s) <= s.rollbacks }

  /** The two ways the counter is lost: attach cannot read a good table and formats a new one, or
      a rollback takes the 32-bit counter past its end. */
  predicate Loses(s: Sys, e: Event)
    requires Shaped(s)
  {
    Valid(Decode(s.disk)) && OnDisk(s) > 0 &&
    match e
    case AttachEv(readOk, io) => !readOk && Lands(io)
    case EvaluateEv(io1, io2) =>
      Exhausted(s) && s.rollbacks == TWO32 - 1 && io1 != CutBefore && !(io1 == Failed && io2 == CutBefore && SwitchTo(s).Some?)
    case _ => false
  }

  /** What a write does to the counters, io by io. */
  predicate Counts(s: Sys, w: Sys, out: Out, io: Io) {
    && OnDisk(w) == (if Lands(io) then s.tbl.rollbacks else OnDisk(s)) && (w.loaded <==> s.loaded && (io == Done || io == Failed))
    && w.rollbacks == s.rollbacks && w.tbl.rollbacks == s.tbl.rollbacks && w.active == s.active && w.tbl.slots == s.tbl.slots
    && (out == Ret(0) <==> io == Done) && (out == Lost <==> io == CutBefore || io == CutAfter)
  }

  lemma WriteCounts(s: Sys, io: Io)
    requires TblOk(s)
    ensures Counts(s, Write(s, io).0, Write(s, io).1, io)
  {
    hide Image, Decode, TableCrc, TblOk, Fits, Valid;
    TblBasics(s);
    StoredCount(s.tbl);
    WriteFields(s, io);
    hide Write;
  }

  lemma TblBasics(s: Sys)
    requires TblOk(s)
    ensures Fits(s.tbl) && s.tbl.magic == AB_MAGIC && s.tbl.version == AB_TABLE_VERSION && Shaped(s)
  {
  }

  lemma WriteFields(s: Sys, io: Io)
    requires Shaped(s)
    ensures var (w, out) := Write(s, io);
      && w.disk == (if Lands(io) then Image(s.tbl.(crc := TableCrc(s.tbl))) else s.disk)
      && w.loaded == (s.loaded && (io == Done || io == Failed)) && w.rollbacks == s.rollbacks && w.active == s.active
      && w.tbl == s.tbl.(crc := TableCrc(s.tbl))
      && out == (if io == Done then Ret(0) else if io == Failed then Ret(EIO) else Lost)
  {
    hide Image, TableCrc;
  }

  lemma StoredCount(t: Table)
    requires Fits(t) && t.magic == AB_MAGIC && t.version == AB_TABLE_VERSION
    ensures Decode(Image(t.(crc := TableCrc(t)))).rollbacks == t.rollbacks
  {
    SealedTable(t);
    hide Image, Decode, TableCrc, Valid;
  }

  lemma SwitchCounts(s: Sys, io: Io)
    requires Inv(s)
    ensures var (t, out) := Switch(s, io);
      && OnDisk(t) == (if s.loaded && SwitchTo(s).Some? && Lands(io) then s.rollbacks else OnDisk(s))
      && (t.loaded <==> s.loaded && (SwitchTo(s).Some? ==> io == Done || io == Failed)) && t.rollbacks == s.rollbacks
  {
    hide Image, Decode, Body, TableCrc, Valid, Write;
    if s.loaded && SwitchTo(s).Some? {
      var to := SwitchTo(s).value;
      var off := if s.active < 0 then s else SetSlot(s, s.active, s.tbl.slots[s.active].(active := 0));
      var on := SetSlot(off, to, off.tbl.slots[to].(active := 1, attempts := 0));
      WriteCounts(on.(active := to, memHist := ActivatedNow(s.memHist, to)), io);
    }
  }

  /** The call stored the counter in memory, or nothing. */
  predicate StoresOrNot(s: Sys, t: Sys) {
    (OnDisk(t) == OnDisk(s) || (s.loaded && OnDisk(t) == s.rollbacks)) && (t.loaded ==> s.loaded && t.rollbacks == s.rollbacks)
  }

  lemma WriteStores(s: Sys, b: Sys, io: Io)
    requires s.loaded && b.loaded && TblOk(b) && b.disk == s.disk && b.rollbacks == s.rollbacks == b.tbl.rollbacks
    ensures StoresOrNot(s, Write(b, io).0)
  {
    WriteCounts(b, io);
    SameDisk(s, b);
    hide TblOk, Write, OnDisk;
  }

  lemma SealStores(s: Sys, idx: nat, lba: nat, nsect: nat, seqNo: nat, crc: Option<nat>, io: Io)
    requires Inv(s) && Enabled(s, SealEv(idx, lba, nsect, seqNo, crc, io))
    ensures StoresOrNot(s, Seal(s, idx, lba, nsect, seqNo, crc, io).0)
  {
    hide Image, Decode, Body, TableCrc, Valid, Write, OnDisk;
    if s.loaded && idx < 2 && nsect != 0 && crc.Some? {
      var slot := s.tbl.slots[idx].(crc := crc.value, seqNo := seqNo, lba := lba, nsect := nsect, attempts := 0, confirmed := 0, active := 0, valid := 1);
      var h := SealedNow(s.memHist, idx, Payload(crc.value, seqNo, lba, nsect));
      WriteStores(s, SetSlot(s, idx, slot).(memHist := h), io);
    }
  }

  lemma BootStores(s: Sys, io: Io)
    requires Inv(s)
    ensures StoresOrNot(s, BootBegin(s, io).0)
  {
    hide Image, Decode, Body, TableCrc, Valid, Write, OnDisk;
    if s.loaded && s.active >= 0 {
      var slot := s.tbl.slots[s.active];
      var slot' := if slot.attempts < 255 then slot.(attempts := slot.attempts + 1) else slot;
      WriteStores(s, SetSlot(s, s.active, slot').(memHist := BootedNow(s.memHist, s.active)), io);
    }
  }

  lemma ConfirmStores(s: Sys, io: Io)
    requires Inv(s)
    ensures StoresOrNot(s, Confirm(s, io).0)
  {
    hide Image, Decode, Body, TableCrc, Valid, Write, OnDisk;
    if s.loaded && s.active >= 0 {
      var slot := s.tbl.slots[s.active];
      var slot' := slot.(confirmed := 1, attempts := 0, seqNo := (slot.seqNo + 1) % TWO32);
      WriteStores(s, SetSlot(s, s.active, slot').(memHist := ConfirmedNow(s.memHist, s.active)), io);
    }
  }

  /** The counters after evaluate's two writes: `sw` says that there is a slot to switch to. */
  lemma CountCases(d0: nat, n0: nat, n1: nat, io1: Io, io2: Io, sw: bool)
    requires d0 <= n0 < TWO32 && n1 == (if n0 == TWO32 - 1 then 0 else n0 + 1)
    ensures var d1 := if Lands(io1) then n1 else d0;
      var cut := io1 == CutBefore || io1 == CutAfter;
      var d2 := if !cut && sw && Lands(io2) then n1 else d1;
      var up := !cut && (sw ==> io2 == Done || io2 == Failed);
      (d0 <= d2 && (up ==> d2 <= n1)) <==>
        !(d0 > 0 && n0 == TWO32 - 1 && io1 != CutBefore && !(io1 == Failed && io2 == CutBefore && sw))
  {
  }

  lemma SameDisk(s: Sys, t: Sys)
    requires t.disk == s.disk
    ensures OnDisk(t) == OnDisk(s)
  {
  }

  lemma SameSwitch(s: Sys, t: Sys)
    requires Shaped(s) && Shaped(t) && t.active == s.active && t.tbl.slots == s.tbl.slots
    ensures SwitchTo(t) == SwitchTo(s)
  {
  }

  lemma DiskOkIs(s: Sys, b: Sys)
    requires DiskOk(s) && b.disk == s.disk && b.diskHist == s.diskHist
    ensures DiskOk(b) && (Valid(Decode(s.disk)) ==> Valid(Decode(b.disk)))
  {
  }

  lemma CountedFacts(s: Sys)
    requires Inv(s) && Exhausted(s)
    ensures var b := Counted(s);
      && b.rollbacks == b.tbl.rollbacks == OneMore(s.rollbacks) && s.rollbacks < TWO32 && b.disk == s.disk && b.loaded && s.loaded
      && b.active == s.active && b.tbl.slots == s.tbl.slots && MemOk(b) && DiskOk(b) && Valid(Decode(b.disk)) && Shaped(b)
  {
    CountedOk(s);
    DiskOkIs(s, Counted(s));
    hide MemOk, DiskOk, Decode, Valid, OneMore, HistOk, TableOk, ActiveOf;
    MemFits(s);
  }

  lemma MemFits(s: Sys)
    requires MemOk(s)
    ensures s.rollbacks < TWO32
  {
  }

  /** What the first write leaves, io by io. */
  predicate AfterFirst(s: Sys, w: Sys, out: Out, io1: Io)
    requires Shaped(s) && Shaped(w)
  {
    && Inv(w) && OnDisk(w) == (if Lands(io1) then OneMore(s.rollbacks) else OnDisk(s)) && (w.loaded <==> io1 == Done || io1 == Failed)
    && (out == Lost <==> io1 == CutBefore || io1 == CutAfter) && w.rollbacks == OneMore(s.rollbacks) && SwitchTo(w) == SwitchTo(s)
  }

  lemma FirstWrite(s: Sys, io1: Io)
    requires Inv(s) && Exhausted(s)
    ensures Shaped(Counted(s))
    ensures AfterFirst(s, Write(Counted(s), io1).0, Write(Counted(s), io1).1, io1)
  {
    CountedFacts(s);
    hide Inv, Exhausted, Write, OnDisk, Counted, SwitchTo, Decode, Valid, Lands, OneMore;
    var b := Counted(s);
    SameDisk(s, b);
    WriteCounts(b, io1);
    WriteInv(b, io1);
    SameSwitch(s, Write(b, io1).0);
  }

  lemma LosesIs(s: Sys, io1: Io, io2: Io)
    requires Shaped(s) && Exhausted(s) && Valid(Decode(s.disk))
    ensures Loses(s, EvaluateEv(io1, io2)) <==>
      OnDisk(s) > 0 && s.rollbacks == TWO32 - 1 && io1 != CutBefore && !(io1 == Failed && io2 == CutBefore && SwitchTo(s).Some?)
  {
    hide OnDisk, Exhausted, SwitchTo, Decode, Valid;
  }

  lemma EvaluateCounts(s: Sys, io1: Io, io2: Io)
    requires Inv(s) && Exhausted(s) && Valid(Decode(s.disk)) && NotBehind(s)
    ensures var t := Evaluate(s, io1, io2).0;
      OnDisk(s) <= OnDisk(t) && NotBehind(t) <==> !Loses(s, EvaluateEv(io1, io2))
  {
    FirstWrite(s, io1);
    CountedFacts(s);
    EvaluateIs(s, io1, io2);
    LosesIs(s, io1, io2);
    hide Inv, Write, Switch, Evaluate, Exhausted, Counted, Lands, SwitchTo, OnDisk, Loses, MemOk, DiskOk, Decode, Valid;
    var w := Write(Counted(s), io1).0;
    SwitchCounts(w, io2);
    CountCases(OnDisk(s), s.rollbacks, OneMore(s.rollbacks), io1, io2, SwitchTo(s).Some?);
  }

  /** With a valid table on disk, a call keeps the durable counter from decreasing, and from
      running ahead of memory, exactly when it does not lose it. */
  lemma StepLosesExactly(s: Sys, e: Event)
    requires Inv(s) && Enabled(s, e) && Valid(Decode(s.disk)) && NotBehind(s)
    ensures var t := Step(s, e).0; OnDisk(s) <= OnDisk(t) && NotBehind(t) <==> !Loses(s, e)
  {
    hide Image, Valid, Seal, BootBegin, Confirm, Switch, Evaluate, Exhausted, OnDisk, SwitchTo;
    match e
    case AttachEv(readOk, io) => AttachCounts(s, readOk, io);
    case SealEv(idx, lba, nsect, seqNo, crc, io) => SealStores(s, idx, lba, nsect, seqNo, crc, io);
    case BootEv(io) => BootStores(s, io);
    case ConfirmEv(io) => ConfirmStores(s, io);
    case SwitchEv(io) => SwitchCounts(s, io);
    case EvaluateEv(io1, io2) => if Exhausted(s) { EvaluateCounts(s, io1, io2); } else { NotExhausted(s, io1, io2); }
    case CutEv => SameDisk(s, Down(s));
  }

  lemma NotExhausted(s: Sys, io1: Io, io2: Io)
    requires Shaped(s) && !Exhausted(s)
    ensures Evaluate(s, io1, io2).0 == s
  {
  }

  lemma AttachCounts(s: Sys, readOk: bool, io: Io)
    requires Inv(s) && Valid(Decode(s.disk)) && NotBehind(s)
    ensures var t := Attach(s, readOk, io).0;
      OnDisk(s) <= OnDisk(t) && NotBehind(t) <==> !Loses(s, AttachEv(readOk, io))
  {
    EmptyOk(s);
    var f := s.(loaded := false, tbl := EMPTY_TABLE, memHist := NO_HIST);
    WriteCounts(f, io);
    hide Image, Body, TableCrc, Write, Valid, HistOk, TableOk, ActiveOf;
  }

  /** None of the first n calls loses the counter. */
  ghost predicate NoneLoses(trace: seq<Sys>, events: seq<Event>, n: nat) {
    forall i :: 0 <= i < n && i < |events| && i < |trace| ==> Shaped(trace[i]) && !Loses(trace[i], events[i])
  }

  lemma {:induction false} CounterKept(trace: seq<Sys>, events: seq<Event>, i: nat)
    requires Steps(trace, events) && i < |trace| && NoneLoses(trace, events, i) && Inv(trace[0]) && NotBehind(trace[0])
    ensures Inv(trace[i]) && NotBehind(trace[i])
    decreases i
  {
    hide Inv, Step, Decode, Valid, Loses, NotBehind, OnDisk;
    if i > 0 {
      CounterKept(trace, events, i - 1);
      var s, e := trace[i - 1], events[i - 1];
      StepKeeps(s, e);
      assert !Loses(s, e);
      if Valid(Decode(s.disk)) { StepLosesExactly(s, e); } else { FirstAttach(s, e); }
    }
  }

  /** With no table on disk only attach writes. */
  lemma FirstAttach(s: Sys, e: Event)
    requires Inv(s) && Enabled(s, e) && !Valid(Decode(s.disk))
    ensures NotBehind(Step(s, e).0)
  {
    if e.AttachEv? {
      EmptyOk(s);
      WriteCounts(s.(loaded := false, tbl := EMPTY_TABLE, memHist := NO_HIST), e.io);
    }
    hide Image, Body, TableCrc, Write, Valid, HistOk, TableOk, ActiveOf, Decode;
  }

  lemma {:induction false} CounterGrows(trace: seq<Sys>, events: seq<Event>, j: nat, i: nat)
    requires Steps(trace, events) && j <= i < |trace| && NoneLoses(trace, events, i) && Inv(trace[0]) && NotBehind(trace[0])
    requires Valid(Decode(trace[j].disk))
    ensures Valid(Decode(trace[i].disk)) && OnDisk(trace[j]) <= OnDisk(trace[i])
    decreases i
  {
    hide Inv, Step, Decode, Valid, Loses, NotBehind, OnDisk;
    if j < i {
      CounterGrows(trace, events, j, i - 1);
      CounterKept(trace, events, i - 1);
      assert !Loses(trace[i - 1], events[i - 1]);
      StepKeeps(trace[i - 1], events[i - 1]);
      StepLosesExactly(trace[i - 1], events[i - 1]);
    }
  }

  /** Over every run, cuts and failing writes included: the durable rollback count never decreases
      while no call loses it. */
  lemma RollbacksNeverDecrease(trace: seq<Sys>, events: seq<Event>, j: nat, i: nat)
    requires Run(trace, events) && j <= i < |trace| && NoneLoses(trace, events, i) && Valid(Decode(trace[j].disk))
    ensures OnDisk(trace[j]) <= OnDisk(trace[i])
  {
    hide Inv, Decode, Valid, Loses, Steps, NoneLoses, OnDisk;
    CounterGrows(trace, events, j, i);
  }

  /** What a loss leaves reaches the disk at once, or with the next boot that is counted. */
  lemma LossShows(s: Sys, e: Event)
    requires Inv(s) && Enabled(s, e) && Valid(Decode(s.disk)) && NotBehind(s) && Loses(s, e)
    ensures Shaped(Step(s, e).0)
    ensures var t := Step(s, e).0; OnDisk(t) < OnDisk(s) || OnDisk(BootBegin(t, Done).0) < OnDisk(s)
  {
    StepKeeps(s, e);
    hide Decode, Valid, OnDisk, BootBegin, Exhausted, SwitchTo, Attach, Evaluate, Inv;
    if e.AttachEv? {
      FormatLoses(s, e.io);
    } else if OnDisk(s) <= OnDisk(Step(s, e).0) {
      FailedTwice(s, e.io1, e.io2);
      BootStoresCount(Step(s, e).0);
    }
  }

  lemma FormatLoses(s: Sys, io: Io)
    requires Inv(s) && Lands(io)
    ensures OnDisk(Attach(s, false, io).0) == 0
  {
    EmptyOk(s);
    hide Inv, Image, Decode, TableCrc, Valid, Write, OnDisk;
    WriteCounts(s.(loaded := false, tbl := EMPTY_TABLE, memHist := NO_HIST), io);
  }

  /** A rollback past the end of the counter that does not show is one in memory, of a manager
      that still has an active slot. */
  lemma FailedTwice(s: Sys, io1: Io, io2: Io)
    requires Inv(s) && Exhausted(s) && s.rollbacks == TWO32 - 1 && OnDisk(s) > 0 && io1 != CutBefore
    requires !(io1 == Failed && io2 == CutBefore && SwitchTo(s).Some?)
    requires OnDisk(s) <= OnDisk(Evaluate(s, io1, io2).0)
    ensures var t := Evaluate(s, io1, io2).0; t.loaded && t.active >= 0 && t.rollbacks == 0
  {
    FirstWrite(s, io1);
    CountedFacts(s);
    EvaluateIs(s, io1, io2);
    hide Inv, Write, Evaluate, Exhausted, Counted, SwitchTo, OnDisk, MemOk, DiskOk, Decode, Valid;
    var w := Write(Counted(s), io1).0;
    SwitchCounts(w, io2);
    SwitchActive(w, io2);
    WriteCounts(Counted(s), io1);
  }

  lemma SwitchActive(s: Sys, io: Io)
    requires Shaped(s) && s.active >= 0
    ensures Switch(s, io).0.active >= 0
  {
    hide Image, TableCrc;
  }

  lemma BootStoresCount(s: Sys)
    requires Inv(s) && s.loaded && s.active >= 0
    ensures OnDisk(BootBegin(s, Done).0) == s.rollbacks
  {
    hide Image, Decode, Body, TableCrc, Valid, Write, OnDisk;
    var slot := s.tbl.slots[s.active];
    var slot' := if slot.attempts < 255 then slot.(attempts := slot.attempts + 1) else slot;
    WriteCounts(SetSlot(s, s.active, slot').(memHist := BootedNow(s.memHist, s.active)), Done);
  }

  /** However the calls go on, as long as none of them loses the counter it never falls below s's. */
  ghost predicate NeverBelow(s: Sys, t: Sys) {
    forall trace: seq<Sys>, events: seq<Event>, i: nat ::
      Steps(trace, events) && trace[0] == t && i < |trace| && NoneLoses(trace, events, i) ==> OnDisk(s) <= OnDisk(trace[i])
  }

  /** Exactly when a call is harmless: whatever follows it, the durable counter stays at least what
      it was, if and only if the call does not lose it. */
  lemma RollbacksMonotoneExactly(s: Sys, e: Event)
    requires Inv(s) && Enabled(s, e) && Valid(Decode(s.disk)) && NotBehind(s)
    ensures NeverBelow(s, Step(s, e).0) <==> !Loses(s, e)
  {
    assert Shaped(s);
    hide Decode, Valid, OnDisk, Step, Loses, NotBehind, Inv;
    var t := Step(s, e).0;
    StepKeeps(s, e);
    StepLosesExactly(s, e);
    if Loses(s, e) {
      LossShows(s, e);
      assert NeverBelow(s, t) ==> OnDisk(s) <= OnDisk(t) by { AtOnce(s, t); }
      assert NeverBelow(s, t) ==> OnDisk(s) <= OnDisk(BootBegin(t, Done).0) by { AfterBoot(s, t); }
    } else {
      hide NoneLoses, Steps;
      forall trace: seq<Sys>, events: seq<Event>, i: nat |
        Steps(trace, events) && trace[0] == t && i < |trace| && NoneLoses(trace, events, i)
        ensures OnDisk(s) <= OnDisk(trace[i])
      {
        CounterGrows(trace, events, 0, i);
      }
    }
  }

  lemma AtOnce(s: Sys, t: Sys)
    ensures NeverBelow(s, t) ==> OnDisk(s) <= OnDisk(t)
  {
    if NeverBelow(s, t) {
      var trace: seq<Sys>, events: seq<Event> := [t], [];
      assert Steps(trace, events) && trace[0] == t && NoneLoses(trace, events, 0);
    }
  }

  lemma AfterBoot(s: Sys, t: Sys)
    requires Shaped(t)
    ensures NeverBelow(s, t) ==> OnDisk(s) <= OnDisk(BootBegin(t, Done).0)
  {
    hide Decode, Valid, OnDisk, BootBegin;
    if NeverBelow(s, t) {
      var trace, events := [t, BootBegin(t, Done).0], [BootEv(Done)];
      assert Steps(trace, events) && trace[0] == t && NoneLoses(trace, events, 1);
      assert OnDisk(s) <= OnDisk(trace[1]);
    }
  }

  // ---- runs that lose it ------------------------------------------------------------------------------------------

  /** A table with both slots sealed, slot 0 active and out of attempts, after n rollbacks. */
  function Spent(n: nat): Table {
    var a := EMPTY_SLOT.(valid := 1);
    Table(AB_MAGIC, AB_TABLE_VERSION, [a.(active := 1, attempts := 3), a], n, 0)
  }

  const SPENT_HIST: Hist := Hist([true, true], [NO_PAYLOAD, NO_PAYLOAD], [0, 0], [3, 0])

  function PoweredOff(n: nat): Sys {
    Sys(Image(Spent(n).(crc := TableCrc(Spent(n)))), SPENT_HIST, false, EMPTY_TABLE, NO_HIST, -1, 0)
  }

  lemma PoweredOffOk(n: nat)
    requires n < TWO32
    ensures var s := PoweredOff(n); Inv(s) && OnDisk(s) == n
    ensures Decode(PoweredOff(n).disk) == Spent(n).(crc := TableCrc(Spent(n))) && Valid(Decode(PoweredOff(n).disk))
  {
    SealedTable(Spent(n));
    hide Image, Decode, TableCrc, Valid;
  }

  /** A losing run of the first kind: an attach that cannot read a table after n > 0 rollbacks. */
  lemma FormatRun(n: nat) returns (trace: seq<Sys>, events: seq<Event>)
    requires 0 < n < TWO32
    ensures Run(trace, events) && events == [AttachEv(false, Done)] && OnDisk(trace[0]) == n && OnDisk(trace[1]) == 0
  {
    hide Decode, Valid, Image, TableCrc, OnDisk, Attach, Inv, PoweredOff;
    PoweredOffOk(n);
    FormatLoses(PoweredOff(n), Done);
    var a, e := PoweredOff(n), AttachEv(false, Done);
    PoweredOffShaped(n);
    trace, events := [a, Step(a, e).0], [e];
    assert trace[0] == a && trace[1] == Step(a, e).0 == Attach(a, false, Done).0 && events[0] == e;
  }

  lemma PoweredOffShaped(n: nat)
    ensures Shaped(PoweredOff(n)) && !PoweredOff(n).loaded
  {
    hide Image, TableCrc;
  }

  /** And of the second: a rollback after 2^32 - 1 of them. */
  lemma WrapRun() returns (trace: seq<Sys>, events: seq<Event>)
    ensures Run(trace, events) && events == [AttachEv(true, Done), EvaluateEv(Done, Done)]
    ensures OnDisk(trace[0]) == TWO32 - 1 && OnDisk(trace[2]) == 0
  {
    hide Decode, Valid, Image, TableCrc, OnDisk, Step, Inv, PoweredOff;
    PoweredOffOk(TWO32 - 1);
    PoweredOffShaped(TWO32 - 1);
    var a, e, f := PoweredOff(TWO32 - 1), AttachEv(true, Done), EvaluateEv(Done, Done);
    WrapLoses(a);
    var b := Step(a, e).0;
    trace, events := [a, b, Step(b, f).0], [e, f];
    assert trace[0] == a && trace[1] == b && trace[2] == Step(b, f).0 && events[0] == e && events[1] == f;
    forall i | 0 <= i < 2 ensures Shaped(trace[i]) && Enabled(trace[i], events[i]) && trace[i + 1] == Step(trace[i], events[i]).0 {
      if i == 0 {} else {}
    }
  }

  lemma WrapLoses(s: Sys)
    requires Inv(s) && Valid(Decode(s.disk)) && Decode(s.disk) == Spent(TWO32 - 1).(crc := TableCrc(Spent(TWO32 - 1)))
    ensures Shaped(s) && Shaped(Step(s, AttachEv(true, Done)).0)
    ensures OnDisk(Step(Step(s, AttachEv(true, Done)).0, EvaluateEv(Done, Done)).0) == 0
  {
    hide Image, Decode, TableCrc, Valid;
    StepKeeps(s, AttachEv(true, Done));
    var t := Step(s, AttachEv(true, Done)).0;
    assert Exhausted(t) && t.rollbacks == TWO32 - 1 && SwitchTo(t) == Some(1);
    FirstWrite(t, Done);
    EvaluateIs(t, Done, Done);
    hide Write, Switch, Evaluate, Counted, OnDisk, Attach, Exhausted, SwitchTo, Inv;
    var (w, out) := Write(Counted(t), Done);
    SwitchCounts(w, Done);
    assert SwitchTo(w) == Some(1) && w.rollbacks == 0 && w.loaded && out != Lost;
    assert OnDisk(Switch(w, Done).0) == 0;
    assert Step(t, EvaluateEv(Done, Done)).0 == Switch(w, Done).0;
  }

  // ---- the manager's code -------------------------------------------------------------------------------------

  class AbMgr {
    var disk: Sector
    var loaded: bool
    var tbl: Table
    var active: int
    var rollbacks: nat
    ghost var diskHist: Hist
    ghost var memHist: Hist

    ghost function Now(): Sys
      reads this
    {
      Sys(disk, diskHist, loaded, tbl, memHist, active, rollbacks)
    }

    constructor (d: Sector, ghost h: Hist)
      ensures Now() == Sys(d, h, false, EMPTY_TABLE, NO_HIST, -1, 0)
    {
      disk, loaded, tbl, active, rollbacks := d, false, EMPTY_TABLE, -1, 0;
      diskHist, memHist := h, NO_HIST;
    }

    method TableWrite(io: Io) returns (out: Out)
      requires Shaped(Now())
      modifies this
      ensures (Now(), out) == Write(old(Now()), io)
    {
      tbl := tbl.(crc := TableCrc(tbl));
      if io == CutBefore { loaded := false; return Lost; }
      if io == Failed { return Ret(EIO); }
      disk, diskHist := Image(tbl), memHist;
      if io == CutAfter { loaded := false; return Lost; }
      out := Ret(0);
    }

    method AttachTo(readOk: bool, io: Io) returns (out: Out)
      requires Shaped(Now())
      modifies this
      ensures (Now(), out) == Attach(old(Now()), readOk, io)
    {
      hide Write, Decode, Valid;
      loaded := false;
      if readOk {
        if Valid(Decode(disk)) {
          tbl, memHist := Decode(disk), diskHist;
          loaded := true;
          active := if tbl.slots[0].active != 0 then 0 else if tbl.slots[1].active != 0 then 1 else -1;
          rollbacks := tbl.rollbacks;
          return Ret(0);
        }
      }
      tbl, memHist := EMPTY_TABLE, NO_HIST;
      out := TableWrite(io);
      if out == Ret(0) { loaded, active, rollbacks := true, -1, 0; }
    }

    method SlotSeal(idx: nat, lba: nat, nsect: nat, seqNo: nat, crc: Option<nat>, io: Io) returns (out: Out)
      requires Shaped(Now())
      modifies this
      ensures (Now(), out) == Seal(old(Now()), idx, lba, nsect, seqNo, crc, io)
    {
      hide Write;
      if !loaded || idx >= 2 || nsect == 0 { return Ret(EINVAL); }
      if crc.None? { return Ret(EIO); }
      var slot := tbl.slots[idx].(crc := crc.value, seqNo := seqNo, lba := lba, nsect := nsect);
      slot := slot.(attempts := 0, confirmed := 0, active := 0, valid := 1);
      tbl := tbl.(slots := tbl.slots[idx := slot]);
      memHist := SealedNow(memHist, idx, Payload(crc.value, seqNo, lba, nsect));
      out := TableWrite(io);
    }

    method BeginBoot(io: Io) returns (out: Out)
      requires Shaped(Now())
      modifies this
      ensures (Now(), out) == BootBegin(old(Now()), io)
    {
      hide Write;
      if !loaded || active < 0 { return Ret(ENODEV); }
      var slot := tbl.slots[active];
      if slot.attempts < 255 { slot := slot.(attempts := slot.attempts + 1); }
      tbl := tbl.(slots := tbl.slots[active := slot]);
      memHist := BootedNow(memHist, active);
      out := TableWrite(io);
    }

    method ConfirmBoot(io: Io) returns (out: Out)
      requires Shaped(Now())
      modifies this
      ensures (Now(), out) == Confirm(old(Now()), io)
    {
      hide Write;
      if !loaded || active < 0 { return Ret(ENODEV); }
      var slot := tbl.slots[active].(confirmed := 1, attempts := 0);
      slot := slot.(seqNo := (slot.seqNo + 1) % TWO32);
      tbl := tbl.(slots := tbl.slots[active := slot]);
      memHist := ConfirmedNow(memHist, active);
      out := TableWrite(io);
    }

    method SwitchSlots(io: Io) returns (out: Out)
      requires Shaped(Now())
      modifies this
      ensures (Now(), out) == Switch(old(Now()), io)
    {
      hide Write;
      if !loaded { return Ret(ENODEV); }
      var other: nat;
      if active < 0 {
        if tbl.slots[0].valid != 0 { other := 0; }
        else if tbl.slots[1].valid != 0 { other := 1; }
        else { return Ret(EINVAL); }
      } else {
        other := 1 - active;
        if tbl.slots[other].valid == 0 { return Ret(EINVAL); }
        tbl := tbl.(slots := tbl.slots[active := tbl.slots[active].(active := 0)]);
      }
      tbl := tbl.(slots := tbl.slots[other := tbl.slots[other].(active := 1, attempts := 0)]);
      memHist := ActivatedNow(memHist, other);
      active := other;
      out := TableWrite(io);
    }

    method EvaluateSlots(io1: Io, io2: Io) returns (out: Out)
      requires Shaped(Now())
      modifies this
      ensures (Now(), out) == Evaluate(old(Now()), io1, io2)
    {
      hide Write, Switch;
      if !loaded || active < 0 { return Ret(ENODEV); }
      var slot := tbl.slots[active];
      if slot.confirmed != 0 || slot.attempts as int < AB_MAX_ATTEMPTS { return Ret(0); }
      rollbacks := OneMore(rollbacks);
      tbl := tbl.(rollbacks := rollbacks);
      out := TableWrite(io1);
      if out == Lost { return; }
      var r := SwitchSlots(io2);
      out := if r.Ret? && r.r >= 0 then Ret(1) else r;
    }
  }
}

/** What a sealed slot holds: the payload fields of its last sealing, through every later call,
    failed write and power cut. */
module AbPayload {
  import opened Bytes
  import opened Errno
  import opened Limits
  import opened Wrappers
  import opened AbTable
  import opened AbSlots

  predicate SealsSlot(e: Event, x: nat) { e.SealEv? && e.idx == x && e.crc.Some? }

  function PayloadOf(e: Event): Payload
    requires e.SealEv? && e.crc.Some?
  {
    Payload(e.crc.value, e.seqNo, e.lba, e.nsect)
  }

  /** Slot x of the table holds p, its sequence number raised by c confirmations. */
  predicate Carries(t: Table, x: nat, p: Payload, c: nat)
    requires |t.slots| == 2 && x < 2
  {
    var s := t.slots[x];
    s.valid != 0 && s.crc == p.crc && s.lba == p.lba && s.nsect == p.nsect && s.seqNo == (p.seqNo + c) % TWO32
  }

  /** What a write that goes through leaves on the disk. */
  lemma Written(s: Sys, b: Sys)
    requires TblOk(b)
    ensures var w := Write(b, Done).0; Decode(w.disk).slots == b.tbl.slots && Decode(w.disk).rollbacks == b.tbl.rollbacks && Valid(Decode(w.disk))
  {
    SealedTable(b.tbl);
    hide Image, Decode, TableCrc, Valid;
  }

  lemma OnlyDone(b: Sys, io: Io)
    requires Shaped(b) && Write(b, io).1 == Ret(0)
    ensures io == Done
  {
    hide Image, TableCrc;
  }

  /** A seal that returns 0 has recorded exactly what the caller gave, never tried, unconfirmed and
      inactive, and the rest of the table as it was in memory. */
  lemma SealStored(s: Sys, idx: nat, lba: nat, nsect: nat, seqNo: nat, crc: Option<nat>, io: Io)
    requires Inv(s) && Enabled(s, SealEv(idx, lba, nsect, seqNo, crc, io)) && Seal(s, idx, lba, nsect, seqNo, crc, io).1 == Ret(0)
    ensures idx < 2 && crc.Some? && s.loaded && nsect > 0
    ensures var t := Decode(Seal(s, idx, lba, nsect, seqNo, crc, io).0.disk);
      && Valid(t) && t.rollbacks == s.tbl.rollbacks && t.slots[1 - idx] == s.tbl.slots[1 - idx]
      && t.slots[idx] == Slot(crc.value, seqNo, lba, nsect, 0, 0, 0, 1, s.tbl.slots[idx].pad)
  {
    hide Image, Decode, Body, TableCrc, Write, Valid;
    var slot := s.tbl.slots[idx].(crc := crc.value, seqNo := seqNo, lba := lba, nsect := nsect, attempts := 0, confirmed := 0, active := 0, valid := 1);
    var h := SealedNow(s.memHist, idx, Payload(crc.value, seqNo, lba, nsect));
    var b := SetSlot(s, idx, slot).(memHist := h);
    OnlyDone(b, io);
    Written(s, b);
  }

  /** A confirmation that returns 0 has cleared the attempts and raised the sequence number. */
  lemma ConfirmStored(s: Sys, io: Io)
    requires Inv(s) && Confirm(s, io).1 == Ret(0)
    ensures s.loaded && 0 <= s.active <= 1
    ensures var t, was := Decode(Confirm(s, io).0.disk), s.tbl.slots[s.active];
      && Valid(t) && t.slots[1 - s.active] == s.tbl.slots[1 - s.active]
      && t.slots[s.active] == was.(confirmed := 1, attempts := 0, seqNo := (was.seqNo + 1) % TWO32)
  {
    hide Image, Decode, Body, TableCrc, Write, Valid;
    var slot := s.tbl.slots[s.active];
    var slot' := slot.(confirmed := 1, attempts := 0, seqNo := (slot.seqNo + 1) % TWO32);
    var b := SetSlot(s, s.active, slot').(memHist := ConfirmedNow(s.memHist, s.active));
    OnlyDone(b, io);
    Written(s, b);
  }

  /** A switch that returns 0 has made the other slot active, or with none active the first sealed
      one, with no attempts; it is sealed, no other slot is active, and nothing else has changed. */
  lemma SwitchStored(s: Sys, io: Io)
    requires Inv(s) && Switch(s, io).1 == Ret(0)
    ensures var (u, out) := Switch(s, io); var t := Decode(u.disk);
      && s.loaded && 0 <= u.active <= 1 && u.active == (if s.active >= 0 then 1 - s.active else if s.tbl.slots[0].valid != 0 then 0 else 1)
      && Valid(t) && s.tbl.slots[u.active].valid != 0
      && t.slots[u.active] == s.tbl.slots[u.active].(active := 1, attempts := 0)
      && t.slots[1 - u.active] == s.tbl.slots[1 - u.active].(active := 0)
  {
    hide Image, Decode, Body, TableCrc, Write, Valid;
    var b := Switched(s);
    SwitchIs(s, io);
    SwitchedOk(s);
    OnlyDone(b, io);
    Written(s, b);
    DoneKeepsActive(b);
  }

  lemma DoneKeepsActive(b: Sys)
    requires Shaped(b)
    ensures Write(b, Done).0.active == b.active
  {
  }

  /** What a switch writes. */
  function Switched(s: Sys): (b: Sys)
    requires Shaped(s)
    ensures Shaped(b)
  {
    if SwitchTo(s).None? then s
    else
      var to := SwitchTo(s).value;
      var off := if s.active < 0 then s else SetSlot(s, s.active, s.tbl.slots[s.active].(active := 0));
      var on := SetSlot(off, to, off.tbl.slots[to].(active := 1, attempts := 0));
      on.(active := to, memHist := ActivatedNow(s.memHist, to))
  }

  lemma SwitchIs(s: Sys, io: Io)
    requires Shaped(s) && Switch(s, io).1 == Ret(0)
    ensures s.loaded && SwitchTo(s).Some? && Switch(s, io) == Write(Switched(s), io)
  {
    hide Write;
  }

  lemma SwitchedOk(s: Sys)
    requires Inv(s) && s.loaded && SwitchTo(s).Some?
    ensures TblOk(Switched(s))
    ensures var b := Switched(s);
      && 0 <= b.active <= 1 && b.active == (if s.active >= 0 then 1 - s.active else if s.tbl.slots[0].valid != 0 then 0 else 1)
      && s.tbl.slots[b.active].valid != 0 && b.tbl.slots[b.active] == s.tbl.slots[b.active].(active := 1, attempts := 0)
      && b.tbl.slots[1 - b.active] == s.tbl.slots[1 - b.active].(active := 0)
  {
    hide Decode, Valid;
    ActiveFacts(s);
  }

  /** An attach that returns 0 has the manager up with the table on disk: the one that was there,
      or an empty one when that could not be read or was not valid. */
  lemma AttachReady(s: Sys, readOk: bool, io: Io)
    requires Inv(s)
    ensures var (u, out) := Attach(s, readOk, io); var good := readOk && Valid(Decode(s.disk));
      && (out == Ret(0) <==> good || io == Done) && (out == Ret(0) <==> u.loaded) && (out == Ret(EIO) <==> !good && io == Failed)
      && (out == Ret(0) ==> u.tbl == Decode(u.disk) && Valid(u.tbl) && u.active == ActiveOf(u.tbl) && u.rollbacks == u.tbl.rollbacks)
      && (good ==> u.disk == s.disk)
      && (out == Ret(0) && !good ==> u.tbl.slots == [EMPTY_SLOT, EMPTY_SLOT] && u.rollbacks == 0 && u.active == -1)
  {
    if readOk && Valid(Decode(s.disk)) {
      hide Image, Decode, TableCrc, Valid, TableOk, HistOk, Body, Write, ActiveOf;
    } else {
      hide Inv;
      InvShaped(s);
      EmptyOk(s);
      SealedTable(EMPTY_TABLE);
      WriteFields(s.(loaded := false, tbl := EMPTY_TABLE, memHist := NO_HIST), io);
      hide Image, Decode, TableCrc, Valid, TableOk, HistOk, Body, Write, ActiveOf;
      EmptyActive(TableCrc(EMPTY_TABLE));
    }
  }

  lemma EmptyActive(crc: nat)
    ensures ActiveOf(EMPTY_TABLE.(crc := crc)) == -1
  {
  }

  /** What the calls refuse: a seal of no slot or of nothing, anything before attach, a boot or a
      confirmation of no active slot, a switch with nothing sealed to switch to. */
  lemma Refusals(s: Sys, e: Event)
    requires Inv(s) && !e.AttachEv? && !e.CutEv? && !e.EvaluateEv?
    ensures var out := Step(s, e).1;
      match e
      case SealEv(idx, _, nsect, _, crc, io) =>
        && (out == Ret(EINVAL) <==> !s.loaded || idx > 1 || nsect == 0)
        && (out == Ret(EIO) <==> s.loaded && idx <= 1 && nsect > 0 && (crc.None? || io == Failed))
      case SwitchEv(io) =>
        && (out == Ret(ENODEV) <==> !s.loaded) && (out == Ret(EIO) ==> io == Failed)
        && (out == Ret(EINVAL) <==> s.loaded && forall i :: 0 <= i < 2 && i != s.active ==> s.tbl.slots[i].valid == 0)
      case _ => (out == Ret(ENODEV) <==> !s.loaded || s.active < 0) && (out == Ret(EIO) ==> WriteOf(e) == Failed)
  {
    hide Image, Decode, TableCrc, Valid, TableOk, HistOk, ActiveOf;
  }

  function WriteOf(e: Event): Io
    requires !e.CutEv?
  {
    if e.EvaluateEv? then e.io1 else e.io
  }

  // ---- over runs ------------------------------------------------------------------------------------

  /** Slot x was sealed with p and confirmed at most n times since, on disk and, once loaded, in memory. */
  predicate Keeps(s: Sys, x: nat, p: Payload, n: nat)
    requires x < 2
  {
    && Shaped(s) && Told(s.diskHist, x, p, n) && (s.loaded ==> Told(s.memHist, x, p, n))
  }

  predicate Told(h: Hist, x: nat, p: Payload, n: nat)
    requires x < 2
  {
    HistShaped(h) && h.sealed[x] && h.payloads[x] == p && h.confirms[x] <= n
  }

  predicate Formats(s: Sys, e: Event)
    requires Shaped(s)
  {
    e.AttachEv? && Lands(e.io) && !(e.readOk && Valid(Decode(s.disk)))
  }

  lemma WriteTells(b: Sys, io: Io, x: nat, p: Payload, n: nat)
    requires Shaped(b) && x < 2 && Told(b.memHist, x, p, n) && Told(b.diskHist, x, p, n)
    ensures var w := Write(b, io).0; Keeps(w, x, p, n) && Told(w.memHist, x, p, n)
  {
    hide Image, TableCrc;
  }

  lemma SwitchTells(s: Sys, io: Io, x: nat, p: Payload, n: nat)
    requires Shaped(s) && x < 2 && Keeps(s, x, p, n)
    ensures Keeps(Switch(s, io).0, x, p, n)
  {
    hide Image, TableCrc, Write;
    if s.loaded && SwitchTo(s).Some? {
      var to := SwitchTo(s).value;
      var off := if s.active < 0 then s else SetSlot(s, s.active, s.tbl.slots[s.active].(active := 0));
      var on := SetSlot(off, to, off.tbl.slots[to].(active := 1, attempts := 0));
      WriteTells(on.(active := to, memHist := ActivatedNow(s.memHist, to)), io, x, p, n);
    }
  }

  lemma EvaluateTells(s: Sys, io1: Io, io2: Io, x: nat, p: Payload, n: nat)
    requires Shaped(s) && x < 2 && Keeps(s, x, p, n)
    ensures Keeps(Evaluate(s, io1, io2).0, x, p, n)
  {
    if Exhausted(s) {
      EvaluateIs(s, io1, io2);
      hide Write, Switch, Evaluate;
      WriteTells(Counted(s), io1, x, p, n);
      SwitchTells(Write(Counted(s), io1).0, io2, x, p, n);
    } else {
      NotExhausted(s, io1, io2);
    }
  }

  /** Every call but a seal of that slot and a format keeps what it holds. */
  lemma StepTells(s: Sys, e: Event, x: nat, p: Payload, n: nat)
    requires Inv(s) && x < 2 && Keeps(s, x, p, n) && !SealsSlot(e, x) && !Formats(s, e)
    ensures Keeps(Step(s, e).0, x, p, n + if e.ConfirmEv? then 1 else 0)
  {
    hide Image, TableCrc, Write, Switch, Evaluate, Valid, Decode, Inv;
    match e
    case AttachEv(readOk, io) =>
      var f := s.(loaded := false, tbl := EMPTY_TABLE, memHist := NO_HIST);
      if !(readOk && Valid(Decode(s.disk))) { LostWrite(f, io); }
    case SealEv(idx, lba, nsect, seqNo, crc, io) =>
      if s.loaded && idx < 2 && nsect != 0 && crc.Some? {
        var slot := s.tbl.slots[idx].(crc := crc.value, seqNo := seqNo, lba := lba, nsect := nsect, attempts := 0, confirmed := 0, active := 0, valid := 1);
        WriteTells(SetSlot(s, idx, slot).(memHist := SealedNow(s.memHist, idx, Payload(crc.value, seqNo, lba, nsect))), io, x, p, n);
      }
    case BootEv(io) =>
      if s.loaded && s.active >= 0 {
        var slot := s.tbl.slots[s.active];
        var slot' := if slot.attempts < 255 then slot.(attempts := slot.attempts + 1) else slot;
        WriteTells(SetSlot(s, s.active, slot').(memHist := BootedNow(s.memHist, s.active)), io, x, p, n);
      }
    case ConfirmEv(io) =>
      if s.loaded && s.active >= 0 {
        var slot := s.tbl.slots[s.active];
        var slot' := slot.(confirmed := 1, attempts := 0, seqNo := (slot.seqNo + 1) % TWO32);
        WriteTells(SetSlot(s, s.active, slot').(memHist := ConfirmedNow(s.memHist, s.active)), io, x, p, n + 1);
      }
    case SwitchEv(io) => SwitchTells(s, io, x, p, n);
    case EvaluateEv(io1, io2) => EvaluateTells(s, io1, io2, x, p, n);
    case CutEv =>
  }

  lemma LostWrite(f: Sys, io: Io)
    requires Shaped(f) && !Lands(io)
    ensures var w := Write(f, io).0; w.diskHist == f.diskHist && (!f.loaded ==> !w.loaded) && Write(f, io).1 != Ret(0)
  {
    hide Image, TableCrc;
  }

  /** The confirm calls among events j, ..., k - 1. */
  function ConfirmCalls(events: seq<Event>, j: nat, k: nat): nat
    requires k <= |events|
    decreases k
  {
    if k <= j then 0 else ConfirmCalls(events, j, k - 1) + if events[k - 1].ConfirmEv? then 1 else 0
  }

  /** Events j, ..., k - 1 neither seal slot x nor format the table. */
  ghost predicate LeavesSlot(trace: seq<Sys>, events: seq<Event>, j: nat, k: nat, x: nat) {
    forall i :: j <= i < k && i < |events| && i < |trace| ==> !SealsSlot(events[i], x) && Shaped(trace[i]) && !Formats(trace[i], events[i])
  }

  /** The table abmgr_slot_seal writes. */
  function Resealed(s: Sys, x: nat, p: Payload): (b: Sys)
    requires Shaped(s) && x < 2
    ensures Shaped(b)
  {
    var slot := s.tbl.slots[x].(crc := p.crc, seqNo := p.seqNo, lba := p.lba, nsect := p.nsect, attempts := 0, confirmed := 0, active := 0, valid := 1);
    SetSlot(s, x, slot).(memHist := SealedNow(s.memHist, x, p))
  }

  lemma SealIs(s: Sys, e: Event)
    requires Shaped(s) && e.SealEv? && s.loaded && e.idx < 2 && e.nsect > 0 && e.crc.Some?
    ensures Step(s, e) == Write(Resealed(s, e.idx, PayloadOf(e)), e.io)
  {
    hide Write;
  }

  lemma StepIsSeal(s: Sys, e: Event)
    requires Inv(s) && Enabled(s, e) && e.SealEv?
    ensures Shaped(s) && Step(s, e) == Seal(s, e.idx, e.lba, e.nsect, e.seqNo, e.crc, e.io)
    ensures Enabled(s, SealEv(e.idx, e.lba, e.nsect, e.seqNo, e.crc, e.io))
  {
    hide Seal, Inv;
    InvShaped(s);
  }

  lemma InvShaped(s: Sys)
    requires Inv(s)
    ensures Shaped(s)
  {
  }

  lemma ResealedTells(s: Sys, x: nat, p: Payload)
    requires Shaped(s) && x < 2
    ensures Told(Resealed(s, x, p).memHist, x, p, 0)
  {
  }

  lemma SealTells(s: Sys, e: Event)
    requires Inv(s) && Enabled(s, e) && e.SealEv? && Step(s, e).1 == Ret(0)
    ensures e.idx < 2 && e.crc.Some? && Keeps(Step(s, e).0, e.idx, PayloadOf(e), 0)
  {
    hide *;
    StepIsSeal(s, e);
    SealStored(s, e.idx, e.lba, e.nsect, e.seqNo, e.crc, e.io);
    SealIs(s, e);
    var b := Resealed(s, e.idx, PayloadOf(e));
    OnlyDone(b, e.io);
    ResealedTells(s, e.idx, PayloadOf(e));
    DoneTells(b, e.idx, PayloadOf(e), 0);
  }

  lemma DoneTells(b: Sys, x: nat, p: Payload, n: nat)
    requires Shaped(b) && x < 2 && Told(b.memHist, x, p, n)
    ensures Keeps(Write(b, Done).0, x, p, n)
  {
    hide Image, TableCrc;
  }

  lemma {:induction false} SlotLasts(trace: seq<Sys>, events: seq<Event>, j: nat, k: nat)
    requires Run(trace, events) && j < k < |trace| && Shaped(trace[j]) && events[j].SealEv? && Step(trace[j], events[j]).1 == Ret(0)
    requires LeavesSlot(trace, events, j + 1, k, events[j].idx)
    ensures events[j].idx < 2 && events[j].crc.Some?
    ensures Keeps(trace[k], events[j].idx, PayloadOf(events[j]), ConfirmCalls(events, j + 1, k))
    decreases k
  {
    hide Inv, Step, Keeps, Formats, SealsSlot;
    RunKeeps(trace, events, j, j);
    SealTells(trace[j], events[j]);
    if k > j + 1 {
      SlotLasts(trace, events, j, k - 1);
      RunKeeps(trace, events, 0, k - 1);
      StepTells(trace[k - 1], events[k - 1], events[j].idx, PayloadOf(events[j]), ConfirmCalls(events, j + 1, k - 1));
    }
  }

  /** What Keeps says of the table on disk. */
  lemma DiskCarries(s: Sys, x: nat, p: Payload, n: nat)
    requires Inv(s) && x < 2 && Keeps(s, x, p, n) && Valid(Decode(s.disk))
    ensures s.diskHist.confirms[x] <= n && Carries(Decode(s.disk), x, p, s.diskHist.confirms[x])
    ensures Decode(s.disk).slots[x].confirmed != 0 <==> s.diskHist.confirms[x] > 0
  {
    hide Decode, Valid, TableOk, MemOk;
    assert SlotTells(Decode(s.disk).slots[x], s.diskHist.sealed[x], s.diskHist.payloads[x], s.diskHist.confirms[x], s.diskHist.tries[x]);
  }

  /** Once a seal has returned 0, and until that slot is sealed again or the table formatted, the
      table on disk is valid and holds what the caller gave, whatever other calls fail or are cut:
      checksum, place and length as sealed, the sequence number raised by the confirmations that
      reached the disk, of those called. */
  lemma PayloadLasts(trace: seq<Sys>, events: seq<Event>, j: nat, k: nat) returns (c: nat)
    requires Run(trace, events) && j < k < |trace| && Shaped(trace[j]) && events[j].SealEv? && Step(trace[j], events[j]).1 == Ret(0)
    requires LeavesSlot(trace, events, j + 1, k, events[j].idx)
    ensures events[j].idx < 2 && events[j].crc.Some? && Valid(Decode(trace[k].disk))
    ensures c <= ConfirmCalls(events, j + 1, k) && Carries(Decode(trace[k].disk), events[j].idx, PayloadOf(events[j]), c)
    ensures Decode(trace[k].disk).slots[events[j].idx].confirmed != 0 <==> c > 0
  {
    hide Inv, Step, Decode, Valid, LeavesSlot, Carries, Keeps;
    SlotLasts(trace, events, j, k);
    RunKeeps(trace, events, j, j);
    SealValid(trace[j], events[j]);
    RunKeeps(trace, events, j + 1, k);
    var n := ConfirmCalls(events, j + 1, k);
    DiskCarries(trace[k], events[j].idx, PayloadOf(events[j]), n);
    c := trace[k].diskHist.confirms[events[j].idx];
  }

  lemma SealValid(s: Sys, e: Event)
    requires Inv(s) && Enabled(s, e) && e.SealEv? && Step(s, e).1 == Ret(0)
    ensures Valid(Decode(Step(s, e).0.disk))
  {
    SealStored(s, e.idx, e.lba, e.nsect, e.seqNo, e.crc, e.io);
  }

  // ---- where it comes from -----------------------------------------------------------------------------

  /** Some seal of slot x among the first k calls gave p. */
  ghost predicate SealedBy(events: seq<Event>, k: nat, x: nat, p: Payload) {
    exists i :: 0 <= i < k && i < |events| && SealsSlot(events[i], x) && PayloadOf(events[i]) == p
  }

  /** Every sealed slot of the history was sealed so by one of the first k calls, or before them. */
  ghost predicate FromSeals(h: Hist, h0: Hist, events: seq<Event>, k: nat) {
    && HistShaped(h) && HistShaped(h0)
    && forall x :: 0 <= x < 2 && h.sealed[x] ==> (h0.sealed[x] && h.payloads[x] == h0.payloads[x]) || SealedBy(events, k, x, h.payloads[x])
  }

  ghost predicate Sourced(s: Sys, h0: Hist, events: seq<Event>, k: nat) {
    FromSeals(s.diskHist, h0, events, k) && (s.loaded ==> FromSeals(s.memHist, h0, events, k))
  }

  lemma WriteSourced(b: Sys, io: Io, h0: Hist, events: seq<Event>, k: nat)
    requires Shaped(b) && FromSeals(b.memHist, h0, events, k) && FromSeals(b.diskHist, h0, events, k)
    ensures var w := Write(b, io).0; Sourced(w, h0, events, k) && w.memHist == b.memHist
  {
    hide Image, TableCrc, FromSeals;
  }

  lemma SourcedMore(h: Hist, h0: Hist, events: seq<Event>, k: nat)
    requires FromSeals(h, h0, events, k)
    ensures FromSeals(h, h0, events, k + 1)
  {
    hide SealsSlot, PayloadOf;
    forall x | 0 <= x < 2 && h.sealed[x] && SealedBy(events, k, x, h.payloads[x]) ensures SealedBy(events, k + 1, x, h.payloads[x]) {}
  }

  /** A history with the same seals. */
  lemma SourcedSame(h: Hist, h': Hist, h0: Hist, events: seq<Event>, k: nat)
    requires FromSeals(h, h0, events, k) && HistShaped(h') && h'.sealed == h.sealed && h'.payloads == h.payloads
    ensures FromSeals(h', h0, events, k)
  {
  }

  lemma SourcedSeal(h: Hist, h0: Hist, events: seq<Event>, k: nat)
    requires k < |events| && FromSeals(h, h0, events, k) && events[k].SealEv? && events[k].crc.Some? && events[k].idx < 2
    ensures FromSeals(SealedNow(h, events[k].idx, PayloadOf(events[k])), h0, events, k + 1)
  {
    SourcedMore(h, h0, events, k);
    hide PayloadOf;
    assert SealsSlot(events[k], events[k].idx);
    assert SealedBy(events, k + 1, events[k].idx, PayloadOf(events[k]));
  }

  lemma SwitchSourced(s: Sys, io: Io, h0: Hist, events: seq<Event>, k: nat)
    requires Shaped(s) && Sourced(s, h0, events, k)
    ensures Sourced(Switch(s, io).0, h0, events, k)
  {
    hide Image, TableCrc, Write, FromSeals;
    if s.loaded && SwitchTo(s).Some? {
      var to := SwitchTo(s).value;
      var off := if s.active < 0 then s else SetSlot(s, s.active, s.tbl.slots[s.active].(active := 0));
      var on := SetSlot(off, to, off.tbl.slots[to].(active := 1, attempts := 0));
      SourcedSame(s.memHist, ActivatedNow(s.memHist, to), h0, events, k);
      WriteSourced(on.(active := to, memHist := ActivatedNow(s.memHist, to)), io, h0, events, k);
    }
  }

  lemma EvaluateSourced(s: Sys, io1: Io, io2: Io, h0: Hist, events: seq<Event>, k: nat)
    requires Shaped(s) && Sourced(s, h0, events, k)
    ensures Sourced(Evaluate(s, io1, io2).0, h0, events, k)
  {
    if Exhausted(s) {
      EvaluateIs(s, io1, io2);
      hide Write, Switch, Evaluate, FromSeals;
      WriteSourced(Counted(s), io1, h0, events, k);
      SwitchSourced(Write(Counted(s), io1).0, io2, h0, events, k);
    } else {
      NotExhausted(s, io1, io2);
    }
  }

  lemma NoneSourced(h0: Hist, events: seq<Event>, k: nat)
    requires HistShaped(h0)
    ensures FromSeals(NO_HIST, h0, events, k)
  {
  }

  lemma StepSourced(s: Sys, h0: Hist, events: seq<Event>, k: nat)
    requires Shaped(s) && k < |events| && Sourced(s, h0, events, k)
    ensures Sourced(Step(s, events[k]).0, h0, events, k + 1)
  {
    hide Image, TableCrc, Write, Switch, Evaluate, Valid, Decode, FromSeals, SealsSlot;
    SourcedMore(s.diskHist, h0, events, k);
    if s.loaded { SourcedMore(s.memHist, h0, events, k); }
    match events[k]
    case AttachEv(readOk, io) =>
      HistsShaped(s.diskHist, h0, events, k);
      NoneSourced(h0, events, k + 1);
      WriteSourced(s.(loaded := false, tbl := EMPTY_TABLE, memHist := NO_HIST), io, h0, events, k + 1);
    case SealEv(idx, lba, nsect, seqNo, crc, io) =>
      if s.loaded && idx < 2 && nsect != 0 && crc.Some? {
        var slot := s.tbl.slots[idx].(crc := crc.value, seqNo := seqNo, lba := lba, nsect := nsect, attempts := 0, confirmed := 0, active := 0, valid := 1);
        SourcedSeal(s.memHist, h0, events, k);
        WriteSourced(SetSlot(s, idx, slot).(memHist := SealedNow(s.memHist, idx, Payload(crc.value, seqNo, lba, nsect))), io, h0, events, k + 1);
      }
    case BootEv(io) =>
      if s.loaded && s.active >= 0 {
        var slot := s.tbl.slots[s.active];
        var slot' := if slot.attempts < 255 then slot.(attempts := slot.attempts + 1) else slot;
        SourcedSame(s.memHist, BootedNow(s.memHist, s.active), h0, events, k + 1);
        WriteSourced(SetSlot(s, s.active, slot').(memHist := BootedNow(s.memHist, s.active)), io, h0, events, k + 1);
      }
    case ConfirmEv(io) =>
      if s.loaded && s.active >= 0 {
        var slot := s.tbl.slots[s.active];
        var slot' := slot.(confirmed := 1, attempts := 0, seqNo := (slot.seqNo + 1) % TWO32);
        SourcedSame(s.memHist, ConfirmedNow(s.memHist, s.active), h0, events, k + 1);
        WriteSourced(SetSlot(s, s.active, slot').(memHist := ConfirmedNow(s.memHist, s.active)), io, h0, events, k + 1);
      }
    case SwitchEv(io) => SwitchSourced(s, io, h0, events, k + 1);
    case EvaluateEv(io1, io2) => EvaluateSourced(s, io1, io2, h0, events, k + 1);
    case CutEv =>
  }

  lemma HistsShaped(h: Hist, h0: Hist, events: seq<Event>, k: nat)
    requires FromSeals(h, h0, events, k)
    ensures HistShaped(h0)
  {
  }

  lemma {:induction false} RunSourced(trace: seq<Sys>, events: seq<Event>, k: nat)
    requires Run(trace, events) && k < |trace|
    ensures Shaped(trace[k]) && Sourced(trace[k], trace[0].diskHist, events, k)
    decreases k
  {
    hide Step, Decode, Valid, TableOk, HistOk, MemOk;
    if k > 0 {
      RunSourced(trace, events, k - 1);
      hide Inv, Sourced;
      StepSourced(trace[k - 1], trace[0].diskHist, events, k - 1);
    }
  }

  /** At every moment of a run every valid slot on disk holds the payload of one of the seals of that
      slot called so far, or, never sealed since, of the table the run began with. */
  lemma PayloadsAreSealed(trace: seq<Sys>, events: seq<Event>, k: nat, x: nat) returns (p: Payload, c: nat)
    requires Run(trace, events) && k < |trace| && x < 2
    requires Valid(Decode(trace[k].disk)) && Decode(trace[k].disk).slots[x].valid != 0
    ensures Carries(Decode(trace[k].disk), x, p, c)
    ensures SealedBy(events, k, x, p) || (x < |trace[0].diskHist.payloads| && p == trace[0].diskHist.payloads[x])
  {
    RunKeeps(trace, events, 0, k);
    RunSourced(trace, events, k);
    hide Run, Decode, Valid, TableOk, MemOk;
    var s := trace[k];
    p, c := s.diskHist.payloads[x], s.diskHist.confirms[x];
    assert SlotTells(Decode(s.disk).slots[x], s.diskHist.sealed[x], p, c, s.diskHist.tries[x]);
  }
}

/** The status normaliser of getcellularstatus.py (lines 223-310): it turns the live
    status record of one cellular module into the blocks the report row is read from,
    substituting all-empty defaults for missing blocks. */
module Normaliser {
  import opened Wrappers
  import opened Json

  /** A block whose every field is the empty string. */
  function EmptyBlock(fields: set<string>): (block: Record)
    ensures block.Keys == fields
    ensures forall f :: f in block ==> block[f] == Str("")
  {
    map f | f in fields :: Str("")
  }

  /** Substituted for an absent `gps` block. */
  const GpsDefault: Record := EmptyBlock({"latitude", "longitude", "state"})

  /** Substituted for an absent `network_state` block. */
  const NetworkDefault: Record := EmptyBlock({"mnc", "mcc", "roaming", "frequency_band", "cell_id"})

  /** Substituted for both SIM slots when the status has no `sim` list. */
  const SimDefault: Record :=
    EmptyBlock({"carrier", "iccid", "imsi", "pin_state", "present",
                "remaining_attempts_pin_verify", "remaining_attempts_puk_unblock", "slot_number"})

  /** A firmware bank with no data. */
  const FirmwareDefault: Record :=
    EmptyBlock({"active", "carrier", "fw_version", "pri_version", "storage_location"})

  /** The two SIM variables after the SIM loop; `None` is a slot the loop never assigned. */
  datatype SimPair = SimPair(sim1: Option<Record>, sim2: Option<Record>)

  /** The two firmware variables before they are read with `.get`. */
  datatype FirmwarePair = FirmwarePair(bank1: Value, bank2: Value)

  /** Every block a report row is read from, once defaults are resolved. */
  datatype Resolved = Resolved(
    activeSim: Value,
    gps: Record,
    network: Record,
    sim1: Record,
    sim2: Record,
    firmware1: Record,
    firmware2: Record)

  /** `sim["slot_number"]` succeeds: the entry is an object that holds the key. */
  predicate HasSlot(entry: Value)
  {
    entry.Obj? && "slot_number" in entry.fields
  }

  /** The SIM loop stores `entry` into sim1 (`toSlotOne`) or into sim2: slot number
      exactly 1 goes to sim1, every other slot number to sim2. */
  predicate Lands(entry: Value, toSlotOne: bool)
  {
    HasSlot(entry) && IsOne(entry.fields["slot_number"]) == toSlotOne
  }

  /** The record one SIM variable holds after the loop: the last entry landing there. */
  function LastLanding(entries: seq<Value>, toSlotOne: bool): Option<Record>
  {
    if entries == [] then None
    else
      var last := entries[|entries| - 1];
      if Lands(last, toSlotOne) then Some(last.fields)
      else LastLanding(entries[..|entries| - 1], toSlotOne)
  }

  /** The SIM variables after lines 243-273: both defaults when there is no list; for a
      list, the last entry of each slot, unless some entry has no slot number (the loop
      raises). Iterating any other value raises or leaves sim1 unset, so it crashes. */
  function SimSlots(sim: Value): Outcome<SimPair>
  {
    match sim
    case Null => Ok(SimPair(Some(SimDefault), Some(SimDefault)))
    case List(entries) =>
      if forall i :: 0 <= i < |entries| ==> HasSlot(entries[i]) then
        Ok(SimPair(LastLanding(entries, true), LastLanding(entries, false)))
      else
        Crash
    case _ => Crash
  }

  /** `firmware[i]`: lists and strings can be indexed, a too-short one raises
      IndexError; an object raises KeyError (JSON keys are strings); numbers and
      booleans raise TypeError. */
  function Index(v: Value, i: nat): Outcome<Value>
  {
    match v
    case List(items) => if i < |items| then Ok(items[i]) else Crash
    case Str(s) => if i < |s| then Ok(Str([s[i]])) else Crash
    case _ => Crash
  }

  /** `len(firmware)`, for the values `Index` accepts. */
  function Len(v: Value): nat
  {
    match v
    case List(items) => |items|
    case Str(s) => |s|
    case _ => 0
  }

  /** The firmware variables after lines 275-310: entries 0 and 1 of a present list, the
      second defaulting when the list has one entry; both defaults when `active_sim` is
      null, which overrides whatever the list held (after it was indexed). */
  function FirmwareBanks(firmware: Value, activeSim: Value): Outcome<FirmwarePair>
  {
    if firmware.Null? then
      Ok(FirmwarePair(Obj(FirmwareDefault), Obj(FirmwareDefault)))
    else
      match Index(firmware, 0)
      case Crash => Crash
      case Ok(first) =>
        var second := if Len(firmware) > 1 then Index(firmware, 1).value else Obj(FirmwareDefault);
        if activeSim.Null? then Ok(FirmwarePair(Obj(FirmwareDefault), Obj(FirmwareDefault)))
        else Ok(FirmwarePair(first, second))
  }

  /** A present block, or the default for an absent or null one. */
  function OrDefault(block: Value, default: Record): Value
  {
    if block.Null? then Obj(default) else block
  }

  /** The whole normaliser: every block resolved, or `Crash` when one of them makes the
      script raise (including the `.get` of the row assembly on a block that is not an
      object, or on a SIM slot the loop left unset). */
  function Resolve(status: Record): Outcome<Resolved>
  {
    var activeSim := Get(status, "active_sim");
    var gps := OrDefault(Get(status, "gps"), GpsDefault);
    var network := OrDefault(Get(status, "network_state"), NetworkDefault);
    match SimSlots(Get(status, "sim"))
    case Crash => Crash
    case Ok(sims) =>
      match FirmwareBanks(Get(status, "firmware"), activeSim)
      case Crash => Crash
      case Ok(banks) =>
        if gps.Obj? && network.Obj? && banks.bank1.Obj? && banks.bank2.Obj?
           && sims.sim1.Some? && sims.sim2.Some?
        then
          Ok(Resolved(activeSim, gps.fields, network.fields, sims.sim1.value, sims.sim2.value,
                      banks.bank1.fields, banks.bank2.fields))
        else
          Crash
  }

  /** The SIM loop of lines 247-251, run over a present list. */
  method SplitSims(entries: seq<Value>) returns (r: Outcome<SimPair>)
    ensures r == SimSlots(List(entries))
  {
    var sim1: Option<Record> := None;
    var sim2: Option<Record> := None;
    for i := 0 to |entries|
      invariant forall k :: 0 <= k < i ==> HasSlot(entries[k])
      invariant sim1 == LastLanding(entries[..i], true)
      invariant sim2 == LastLanding(entries[..i], false)
    {
      var entry := entries[i];
      assert entries[..i + 1][..i] == entries[..i];
      if !HasSlot(entry) {
        return Crash;
      }
      if IsOne(entry.fields["slot_number"]) {
        sim1 := Some(entry.fields);
      } else {
        sim2 := Some(entry.fields);
      }
    }
    assert entries[..|entries|] == entries;
    r := Ok(SimPair(sim1, sim2));
  }

  /** The normaliser step by step, as lines 223-310 run it. */
  method ResolveStatus(status: Record) returns (r: Outcome<Resolved>)
    ensures r == Resolve(status)
  {
    var activeSim := Get(status, "active_sim");
    var gps := Get(status, "gps");
    if gps.Null? {
      gps := Obj(GpsDefault);
    }
    var network := Get(status, "network_state");
    if network.Null? {
      network := Obj(NetworkDefault);
    }
    var simData := Get(status, "sim");
    var sims := SimPair(None, None);
    if simData.Null? {
      sims := SimPair(Some(SimDefault), Some(SimDefault));
    } else if simData.List? {
      var split := SplitSims(simData.items);
      if split.Crash? {
        return Crash;
      }
      sims := split.value;
    } else {
      return Crash;
    }
    var firmware := Get(status, "firmware");
    var firmware1 := Obj(FirmwareDefault);
    var firmware2 := Obj(FirmwareDefault);
    if !firmware.Null? {
      var first := Index(firmware, 0);
      if first.Crash? {
        return Crash;
      }
      firmware1 := first.value;
      if Len(firmware) > 1 {
        firmware2 := Index(firmware, 1).value;
      }
    }
    if activeSim.Null? {
      firmware1 := Obj(FirmwareDefault);
      firmware2 := Obj(FirmwareDefault);
    }
    if !(gps.Obj? && network.Obj? && firmware1.Obj? && firmware2.Obj?
         && sims.sim1.Some? && sims.sim2.Some?) {
      return Crash;
    }
    r := Ok(Resolved(activeSim, gps.fields, network.fields, sims.sim1.value, sims.sim2.value,
                     firmware1.fields, firmware2.fields));
  }

  // ---------------------------------------------------------------------------
  // When the normaliser succeeds, stated without running it
  // ---------------------------------------------------------------------------

  /** A block the row can `.get` from: absent, null or an object. */
  ghost predicate BlockUsable(block: Value)
  {
    block.Null? || block.Obj?
  }

  /** A SIM value the loop accepts and that fills both slots. */
  ghost predicate SimUsable(sim: Value)
  {
    sim.Null? ||
    (sim.List?
     && (forall i :: 0 <= i < |sim.items| ==> HasSlot(sim.items[i]))
     && (exists i :: 0 <= i < |sim.items| && Lands(sim.items[i], true))
     && (exists i :: 0 <= i < |sim.items| && Lands(sim.items[i], false)))
  }

  /** A firmware value that can be indexed at 0 and, unless the banks are suppressed,
      whose banks are objects. */
  ghost predicate FirmwareUsable(firmware: Value, activeSim: Value)
  {
    firmware.Null? ||
    (((firmware.List? && |firmware.items| > 0) || (firmware.Str? && |firmware.s| > 0))
     && (activeSim.Null? ||
         (firmware.List? && firmware.items[0].Obj?
          && (|firmware.items| > 1 ==> firmware.items[1].Obj?))))
  }

  /** A status record the script turns into a row without raising. */
  ghost predicate Normalisable(status: Record)
  {
    && BlockUsable(Get(status, "gps"))
    && BlockUsable(Get(status, "network_state"))
    && SimUsable(Get(status, "sim"))
    && FirmwareUsable(Get(status, "firmware"), Get(status, "active_sim"))
  }

  /** A SIM slot stays unset exactly when no entry lands in it. */
  lemma {:induction false} LastLandingNone(entries: seq<Value>, toSlotOne: bool)
    ensures LastLanding(entries, toSlotOne).None?
            <==> forall i :: 0 <= i < |entries| ==> !Lands(entries[i], toSlotOne)
  {
    if entries != [] {
      var init := entries[..|entries| - 1];
      LastLandingNone(init, toSlotOne);
      assert forall i :: 0 <= i < |init| ==> init[i] == entries[i];
    }
  }

  /** Among several entries for one slot, the last one wins. */
  lemma {:induction false} LastLandingAt(entries: seq<Value>, toSlotOne: bool, i: int)
    requires 0 <= i < |entries| && Lands(entries[i], toSlotOne)
    requires forall j :: i < j < |entries| ==> !Lands(entries[j], toSlotOne)
    ensures LastLanding(entries, toSlotOne) == Some(entries[i].fields)
  {
    if i < |entries| - 1 {
      var init := entries[..|entries| - 1];
      assert forall j :: i < j < |init| ==> init[j] == entries[j];
      LastLandingAt(init, toSlotOne, i);
    }
  }

  /** The normaliser raises exactly for the records `Normalisable` rules out. */
  lemma ResolveSucceedsIff(status: Record)
    ensures Resolve(status).Ok? <==> Normalisable(status)
  {
    var sim := Get(status, "sim");
    if sim.List? {
      LastLandingNone(sim.items, true);
      LastLandingNone(sim.items, false);
    }
  }

  /** An absent or null `gps` or `network_state` becomes its all-empty default; a present
      one is used as it is. */
  lemma BlocksDefaultWhenAbsent(status: Record)
    requires Resolve(status).Ok?
    ensures Get(status, "gps").Null? ==> Resolve(status).value.gps == GpsDefault
    ensures !Get(status, "gps").Null? ==> Get(status, "gps") == Obj(Resolve(status).value.gps)
    ensures Get(status, "network_state").Null? ==> Resolve(status).value.network == NetworkDefault
    ensures !Get(status, "network_state").Null?
            ==> Get(status, "network_state") == Obj(Resolve(status).value.network)
  {
  }

  /** Without a SIM list both slots are the all-empty SIM record. */
  lemma SimSlotsBlankWithoutList(status: Record)
    requires Get(status, "sim").Null? && Resolve(status).Ok?
    ensures Resolve(status).value.sim1 == SimDefault && Resolve(status).value.sim2 == SimDefault
  {
  }

  /** With a SIM list, each slot holds the last entry whose slot number sends it there:
      exactly 1 for sim1, anything else for sim2. */
  lemma SimSlotLastEntryWins(status: Record, toSlotOne: bool, i: int)
    requires Get(status, "sim").List? && Resolve(status).Ok?
    requires 0 <= i < |Get(status, "sim").items| && Lands(Get(status, "sim").items[i], toSlotOne)
    requires forall j :: i < j < |Get(status, "sim").items| ==> !Lands(Get(status, "sim").items[j], toSlotOne)
    ensures var res := Resolve(status).value;
            (if toSlotOne then res.sim1 else res.sim2) == Get(status, "sim").items[i].fields
  {
    LastLandingAt(Get(status, "sim").items, toSlotOne, i);
  }

  /** A slot-1 entry followed by a slot-2 entry fill sim1 and sim2 one to one. */
  lemma SimPairMapsOneToOne(status: Record, a: Record, b: Record)
    requires "slot_number" in a && a["slot_number"] == Int(1)
    requires "slot_number" in b && b["slot_number"] == Int(2)
    requires Get(status, "sim") == List([Obj(a), Obj(b)]) && Resolve(status).Ok?
    ensures Resolve(status).value.sim1 == a && Resolve(status).value.sim2 == b
  {
    LastLandingAt([Obj(a), Obj(b)], true, 0);
    LastLandingAt([Obj(a), Obj(b)], false, 1);
  }

  /** Python equality decides the slot: 3 and "" go to sim2, `true` counts as 1. */
  lemma SlotNumberEquality()
    ensures Lands(Obj(map["slot_number" := Int(3)]), false)
    ensures Lands(Obj(map["slot_number" := Str("")]), false)
    ensures Lands(Obj(map["slot_number" := Str("1")]), false)
    ensures Lands(Obj(map["slot_number" := Bool(true)]), true)
  {
  }

  /** With an active SIM reported, bank 1 is the first firmware entry and bank 2 the
      second, or the empty bank when the list has one entry; with no list both are empty. */
  lemma FirmwareBanksFollowList(status: Record)
    requires Resolve(status).Ok? && !Get(status, "active_sim").Null?
    ensures Get(status, "firmware").Null? ==>
              Resolve(status).value.firmware1 == FirmwareDefault
              && Resolve(status).value.firmware2 == FirmwareDefault
    ensures Get(status, "firmware").List? ==>
              var entries := Get(status, "firmware").items;
              |entries| > 0
              && Obj(Resolve(status).value.firmware1) == entries[0]
              && (|entries| > 1 ==> Obj(Resolve(status).value.firmware2) == entries[1])
              && (|entries| == 1 ==> Resolve(status).value.firmware2 == FirmwareDefault)
  {
  }

  /** Without an active SIM both banks are empty, whatever the firmware list held. */
  lemma FirmwareSuppressedWithoutActiveSim(status: Record)
    requires Resolve(status).Ok? && Get(status, "active_sim").Null?
    ensures Resolve(status).value.firmware1 == FirmwareDefault
    ensures Resolve(status).value.firmware2 == FirmwareDefault
  {
  }

  /** An empty firmware list raises even when the banks would be suppressed, and an
      empty SIM list leaves both slots unset. */
  lemma EmptyListsCrash(status: Record)
    ensures Get(status, "firmware") == List([]) ==> Resolve(status).Crash?
    ensures Get(status, "sim") == List([]) ==> Resolve(status).Crash?
  {
  }

  /** The named case of the suppression rule: a null `active_sim` empties the banks of a
      record that did report firmware, while an `active_sim` of 0 keeps them. */
  lemma SuppressionNamedCase(bank: Record)
    ensures var status := map["active_sim" := Null, "firmware" := List([Obj(bank)])];
            Resolve(status).Ok?
            && Resolve(status).value.firmware1 == FirmwareDefault
            && Resolve(status).value.firmware2 == FirmwareDefault
    ensures var status := map["active_sim" := Int(0), "firmware" := List([Obj(bank)])];
            Resolve(status).Ok?
            && Resolve(status).value.firmware1 == bank
            && Resolve(status).value.firmware2 == FirmwareDefault
  {
  }
}

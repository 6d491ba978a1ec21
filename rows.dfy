/** The report row of getcellularstatus.py (HEADER at lines 34-42, the `writerow`
    mapping at lines 312-366): one dictionary per cellular module, keyed by column. */
module Rows {
  import opened Wrappers
  import opened Json
  import opened Api
  import opened Normaliser

  /** The values of the `writerow` dictionary, listed in header order (cell k belongs
      to column `Header[k]`). Their conversion to text is not part of the row. */
  type Row = seq<Value>

  /** The columns of the report, in output order. */
  const Header: seq<string> := [
    "site_name", "element_name", "model_name", "serial_number", "software_version",
    "cellular_module", "gps_enabled", "radio_enabled", "cellular_module_description",
    "cellular_module_tags",
    "technology", "modem_state", "network_registration_state", "packet_service_state",
    "activation_state", "signal_strength_indicator", "active_sim", "manufacturer", "imei",
    "cellular_module_model_name", "cellular_module_serial_number",
    "gps_latitude", "gps_longitude", "gps_state", "mcc", "mnc", "cell_id", "frequency_band",
    "roaming",
    "firmware_1_active", "firmware_1_carrier", "firmware_1_version", "firmware_1_pri_version",
    "firmware_1_storage_location",
    "firmware_2_active", "firmware_2_carrier", "firmware_2_version", "firmware_2_pri_version",
    "firmware_2_storage_location",
    "pin_state_sim1", "present_sim1", "carrier_sim1", "imsi_sim1", "iccid_sim1",
    "pin_verification_remaining_sim1", "puk_unblock_remaining_sim1",
    "pin_state_sim2", "present_sim2", "carrier_sim2", "imsi_sim2", "iccid_sim2",
    "pin_verification_remaining_sim2", "puk_unblock_remaining_sim2"]

  /** The fourteen columns read from the two SIM slots. */
  const SimColumns: seq<string> := Header[39..]

  /** The header names 53 columns, the last fourteen of them read from the SIM slots. */
  lemma HeaderShape()
    ensures |Header| == 53
    ensures |SimColumns| == 14
    ensures forall k :: 0 <= k < 7 ==> SimColumns[k][|SimColumns[k]| - 4..] == "sim1"
    ensures forall k :: 7 <= k < 14 ==> SimColumns[k][|SimColumns[k]| - 4..] == "sim2"
  {
  }

  /** The GPS and firmware-version columns sit where the row lemmas below place them. */
  lemma HeaderColumnNames()
    ensures |Header| == 53
    ensures Header[21] == "gps_latitude" && Header[22] == "gps_longitude" && Header[23] == "gps_state"
    ensures Header[31] == "firmware_1_version" && Header[36] == "firmware_2_version"
  {
  }

  /** The cells read from the site and element (columns 0-4). */
  function ElementCells(siteName: string, elementName: string, modelName: string, element: ElemRec): seq<Value>
  {
    [Str(siteName), Str(elementName), Str(modelName), element.serialNumber, element.softwareVersion]
  }

  /** The cells read from the module configuration (columns 5-9). */
  function ModuleCells(cm: ModuleRec): seq<Value>
  {
    [cm.name, cm.gpsEnable, cm.radioOn, cm.description, cm.tags]
  }

  /** The status record's scalar keys, in the order of columns 10-20. */
  const ScalarKeys: seq<string> := [
    "technology", "modem_state", "network_registration_state", "packet_service_state",
    "activation_state", "signal_strength_indicator", "active_sim", "manufacturer", "imei",
    "model_name", "serial_number"]

  /** The status record's scalars (columns 10-20); a missing one is `None`. */
  function ScalarCells(status: Record): seq<Value>
  {
    seq(|ScalarKeys|, k requires 0 <= k < |ScalarKeys| => Get(status, ScalarKeys[k]))
  }

  /** The GPS block (columns 21-23). */
  function GpsCells(gps: Record): seq<Value>
  {
    [Get(gps, "latitude"), Get(gps, "longitude"), Get(gps, "state")]
  }

  /** The network registration block (columns 24-28). */
  function NetworkCells(network: Record): seq<Value>
  {
    [Get(network, "mcc"), Get(network, "mnc"), Get(network, "cell_id"),
     Get(network, "frequency_band"), Get(network, "roaming")]
  }

  /** One firmware bank (columns 29-33 for bank 1, 34-38 for bank 2). */
  function FirmwareCells(bank: Record): seq<Value>
  {
    [Get(bank, "active"), Get(bank, "carrier"), Get(bank, "fw_version"),
     Get(bank, "pri_version"), Get(bank, "storage_location")]
  }

  /** One SIM slot (columns 39-45 for sim1, 46-52 for sim2). */
  function SimCells(sim: Record): seq<Value>
  {
    [Get(sim, "pin_state"), Get(sim, "present"), Get(sim, "carrier"), Get(sim, "imsi"),
     Get(sim, "iccid"), Get(sim, "remaining_attempts_pin_verify"),
     Get(sim, "remaining_attempts_puk_unblock")]
  }

  /** The dictionary passed to `writerow` for one module (lines 312-366), as its values:
      one per header column, in header order. */
  function AssembleRow(siteName: string, elementName: string, modelName: string,
                       element: ElemRec, cm: ModuleRec, status: Record, res: Resolved): (row: Row)
    ensures |row| == |Header|
  {
    ElementCells(siteName, elementName, modelName, element) + ModuleCells(cm) + ScalarCells(status)
    + GpsCells(res.gps) + NetworkCells(res.network)
    + FirmwareCells(res.firmware1) + FirmwareCells(res.firmware2)
    + SimCells(res.sim1) + SimCells(res.sim2)
  }

  /** Without a SIM list every SIM column of the row is the empty string. */
  lemma SimColumnsBlankWithoutSimList(siteName: string, elementName: string, modelName: string,
                                      element: ElemRec, cm: ModuleRec, status: Record, res: Resolved)
    requires Get(status, "sim").Null? && Resolve(status) == Ok(res)
    ensures var row := AssembleRow(siteName, elementName, modelName, element, cm, status, res);
            |row| == |Header| && forall k :: |Header| - |SimColumns| <= k < |Header| ==> row[k] == Str("")
  {
    SimSlotsBlankWithoutList(status);
    var row := AssembleRow(siteName, elementName, modelName, element, cm, status, res);
    assert row[39..] == SimCells(SimDefault) + SimCells(SimDefault);
  }

  /** Every scalar the status record lacks is passed to `writerow` as `None`, not as an
      empty string; a present one is passed as it is. */
  lemma MissingScalarIsNone(siteName: string, elementName: string, modelName: string,
                            element: ElemRec, cm: ModuleRec, status: Record, res: Resolved)
    ensures |ScalarKeys| == 11 && ScalarKeys[8] == "imei" && Header[18] == "imei"
    ensures var row := AssembleRow(siteName, elementName, modelName, element, cm, status, res);
            forall k :: 0 <= k < 11 ==>
              (ScalarKeys[k] !in status ==> row[10 + k] == Null)
              && (ScalarKeys[k] in status ==> row[10 + k] == status[ScalarKeys[k]])
  {
    var row := AssembleRow(siteName, elementName, modelName, element, cm, status, res);
    assert row[10..21] == ScalarCells(status);
    forall k | 0 <= k < 11
      ensures row[10 + k] == Get(status, ScalarKeys[k])
    {
      assert row[10 + k] == row[10..21][k];
    }
  }

  /** The firmware version of bank 1 lands in column `firmware_1_version`, and that of
      bank 2 in `firmware_2_version`. */
  lemma FirmwareVersionColumns(siteName: string, elementName: string, modelName: string,
                               element: ElemRec, cm: ModuleRec, status: Record, res: Resolved)
    ensures var row := AssembleRow(siteName, elementName, modelName, element, cm, status, res);
            row[31] == Get(res.firmware1, "fw_version") && row[36] == Get(res.firmware2, "fw_version")
  {
    var row := AssembleRow(siteName, elementName, modelName, element, cm, status, res);
    assert row[29..34] == FirmwareCells(res.firmware1);
    assert row[34..39] == FirmwareCells(res.firmware2);
  }

  /** The fields of an absent `gps` block are passed to `writerow` as empty strings
      (columns 21-23, the `gps_*` columns). */
  lemma AbsentGpsIsBlank(siteName: string, elementName: string, modelName: string,
                         element: ElemRec, cm: ModuleRec, status: Record, res: Resolved)
    requires Resolve(status) == Ok(res) && "gps" !in status
    ensures var row := AssembleRow(siteName, elementName, modelName, element, cm, status, res);
            row[21..24] == [Str(""), Str(""), Str("")]
  {
    BlocksDefaultWhenAbsent(status);
    var row := AssembleRow(siteName, elementName, modelName, element, cm, status, res);
    assert row[21..24] == GpsCells(GpsDefault);
  }
}

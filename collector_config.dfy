/**
 * Collector configuration and ingest (app.py `get_config`, `set_config`,
 * `_pull_loop`, `ingest`): the stored configuration is a JSON object; the
 * password is write-only; ingested readings are stamped with their arrival
 * time unless they carry one.
 */
module CollectorConfig {
  import opened Wrappers
  import opened PyValues
  import DeviceKey

  /** The keys `set_config` copies from the request, in the order it copies them. */
  const ConfigKeys: seq<string> := ["router_url", "router_user", "router_pass", "enabled", "interval"]

  const PasswordKey: string := "router_pass"

  /** The stored configuration after merging `payload` into `stored`. */
  function Merged(stored: Record, payload: Record): (cfg: Record)
    ensures forall k :: k in cfg <==> k in stored || (k in ConfigKeys && k in payload)
    ensures forall k :: k in ConfigKeys && k in payload ==> cfg[k] == payload[k]
    ensures forall k :: k in stored && !(k in ConfigKeys && k in payload) ==> cfg[k] == stored[k]
  {
    map k | k in stored.Keys + (set c | c in ConfigKeys && c in payload) ::
      if k in ConfigKeys && k in payload then payload[k] else stored[k]
  }

  /**
   * `set_config`: a body that is not a JSON object is refused with "invalid
   * json" and nothing is written; otherwise each whitelisted key present in
   * the body overwrites the stored one. Returns the configuration written.
   */
  method SetConfig(stored: Record, body: JsonDoc) returns (r: Result<Record, Fault>)
    ensures !body.Object? ==> r == Err(InvalidJson)
    ensures body.Object? ==> r == Ok(Merged(stored, body.rec))
  {
    if !body.Object? {
      return Err(InvalidJson);
    }
    var payload := body.rec;
    var cfg := stored;
    for i := 0 to |ConfigKeys|
      invariant forall k :: k in cfg <==> k in stored || (k in ConfigKeys[..i] && k in payload)
      invariant forall k :: k in ConfigKeys[..i] && k in payload ==> cfg[k] == payload[k]
      invariant forall k :: k in stored && !(k in ConfigKeys[..i] && k in payload) ==> cfg[k] == stored[k]
    {
      var key := ConfigKeys[i];
      assert ConfigKeys[..i + 1] == ConfigKeys[..i] + [key];
      if key in payload {
        cfg := cfg[key := payload[key]];
      }
    }
    assert ConfigKeys[..|ConfigKeys|] == ConfigKeys;
    var merged := Merged(stored, payload);
    assert cfg.Keys == merged.Keys;
    assert forall k :: k in cfg ==> cfg[k] == merged[k];
    assert cfg == merged;
    r := Ok(cfg);
  }

  /** The configuration as shown to clients: everything but the password. */
  function Redacted(cfg: Record): (shown: Record)
    ensures PasswordKey !in shown
    ensures forall k :: k != PasswordKey ==> (k in shown <==> k in cfg)
    ensures forall k :: k in shown ==> shown[k] == cfg[k]
  {
    cfg - {PasswordKey}
  }

  /** `get_config`: `cfg.pop("router_pass", None)` on the stored configuration, which is then returned. */
  method GetConfig(stored: Record) returns (shown: Record)
    ensures shown == Redacted(stored)
  {
    shown := stored;
    if PasswordKey in shown {
      shown := shown - {PasswordKey};
    }
  }

  /**
   * Saving and then loading the configuration returns every whitelisted
   * value the save carried, except the password, which is never read back;
   * other stored entries come back unchanged.
   */
  lemma {:induction false} SavedConfigReadBack(stored: Record, payload: Record, k: string)
    ensures PasswordKey !in Redacted(Merged(stored, payload))
    ensures k != PasswordKey && k in ConfigKeys && k in payload ==>
      k in Redacted(Merged(stored, payload)) && Redacted(Merged(stored, payload))[k] == payload[k]
    ensures k != PasswordKey && !(k in ConfigKeys && k in payload) ==>
      (k in Redacted(Merged(stored, payload)) <==> k in stored)
  {
  }

  // ---------------------------------------------------------------------
  // The pull loop

  const DefaultInterval: int := 10
  const MinInterval: int := 3

  /** One round of `_pull_loop`: whether to pull, and how long to sleep after. */
  datatype LoopRound = LoopRound(pull: bool, sleepSeconds: int)

  /**
   * One round of `_pull_loop` for the configuration read: `enabled` by
   * truthiness, `int(cfg.get("interval", 10))` raised to at least 3. None
   * where `int()` raises, which ends the loop's thread.
   */
  function PullRound(cfg: Record): (r: Option<LoopRound>)
    ensures r.Some? <==> IntOf(if "interval" in cfg then cfg["interval"] else Int(DefaultInterval)).Some?
    ensures r.Some? ==> r.value.pull == ("enabled" in cfg && Truthy(cfg["enabled"]))
    ensures r.Some? ==> r.value.sleepSeconds >= MinInterval
    ensures r.Some? && "interval" !in cfg ==> r.value.sleepSeconds == DefaultInterval
    ensures r.Some? && "interval" in cfg ==>
      var n := IntOf(cfg["interval"]).value;
      r.value.sleepSeconds == if n < MinInterval then MinInterval else n
  {
    var enabled := "enabled" in cfg && Truthy(cfg["enabled"]);
    match IntOf(if "interval" in cfg then cfg["interval"] else Int(DefaultInterval))
    case None => None
    case Some(interval) =>
      Some(LoopRound(enabled, if interval < MinInterval then MinInterval else interval))
  }

  // ---------------------------------------------------------------------
  // Ingest

  /** `payload.setdefault("received_at", now)`. */
  function StampReceived(payload: Record, now: int): (stamped: Record)
    ensures "received_at" in stamped
    ensures "received_at" in payload ==> stamped == payload
    ensures "received_at" !in payload ==> stamped["received_at"] == Int(now)
    ensures forall k :: k != "received_at" ==> (k in stamped <==> k in payload)
    ensures forall k :: k in payload ==> stamped[k] == payload[k]
  {
    if "received_at" in payload then payload else payload["received_at" := Int(now)]
  }

  /** The line `_append_history` adds to a device's history file. */
  datatype HistoryRecord = HistoryRecord(t: int, totalBytes: int, lanBytes: int, localBytes: int)

  /** `int(payload.get(k) or 0)` for one byte count; None where `int()` raises. */
  function ByteCount(payload: Record, k: string): Option<int>
  {
    IntOf(GetOr(payload, k, Int(0)))
  }

  /**
   * The record `_append_history` builds at time `now`: the three byte counts
   * through `int(... or 0)`. None where one of them makes `int()` raise.
   */
  function HistoryRecordOf(payload: Record, now: int): (r: Option<HistoryRecord>)
    ensures r.Some? <==>
      ByteCount(payload, "total_bytes").Some? && ByteCount(payload, "lan_bytes").Some? && ByteCount(payload, "local_bytes").Some?
    ensures r.Some? ==> r.value.t == now
    ensures r.Some? ==> (r.value.totalBytes == ByteCount(payload, "total_bytes").value
      && r.value.lanBytes == ByteCount(payload, "lan_bytes").value
      && r.value.localBytes == ByteCount(payload, "local_bytes").value)
  {
    match (ByteCount(payload, "total_bytes"), ByteCount(payload, "lan_bytes"), ByteCount(payload, "local_bytes"))
    case (Some(total), Some(lan), Some(local)) => Some(HistoryRecord(now, total, lan, local))
    case _ => None
  }

  /** Absent, falsy or integer byte counts always give a history record, with 0 for the absent and falsy ones. */
  lemma {:induction false} IntegerCountsAppend(payload: Record, now: int)
    requires forall k :: k in ["total_bytes", "lan_bytes", "local_bytes"] && k in payload && Truthy(payload[k]) ==> payload[k].Int?
    ensures HistoryRecordOf(payload, now).Some?
    ensures !("total_bytes" in payload && Truthy(payload["total_bytes"])) ==> HistoryRecordOf(payload, now).value.totalBytes == 0
    ensures !("lan_bytes" in payload && Truthy(payload["lan_bytes"])) ==> HistoryRecordOf(payload, now).value.lanBytes == 0
    ensures !("local_bytes" in payload && Truthy(payload["local_bytes"])) ==> HistoryRecordOf(payload, now).value.localBytes == 0
    ensures "total_bytes" in payload && Truthy(payload["total_bytes"]) ==> HistoryRecordOf(payload, now).value.totalBytes == payload["total_bytes"].i
    ensures "lan_bytes" in payload && Truthy(payload["lan_bytes"]) ==> HistoryRecordOf(payload, now).value.lanBytes == payload["lan_bytes"].i
    ensures "local_bytes" in payload && Truthy(payload["local_bytes"]) ==> HistoryRecordOf(payload, now).value.localBytes == payload["local_bytes"].i
  {
    assert "total_bytes" in ["total_bytes", "lan_bytes", "local_bytes"];
    assert "lan_bytes" in ["total_bytes", "lan_bytes", "local_bytes"];
    assert "local_bytes" in ["total_bytes", "lan_bytes", "local_bytes"];
  }

  /** A byte count that is text `int()` rejects gives no history record. */
  lemma {:induction false} TextCountFails(payload: Record, now: int)
    requires payload == map["device" := Str("a"), "total_bytes" := Str("x")]
    ensures HistoryRecordOf(payload, now).None?
  {
    assert Strip("x") == "x";
  }

  /** What one `ingest` call writes: the device key, the latest file's reading, and the history line if one was appended. */
  datatype Ingested = Ingested(key: string, latest: Record, appended: Option<HistoryRecord>)

  /**
   * `ingest`: a body that is not a JSON object is refused and nothing is
   * written. Otherwise the reading is stamped (an existing `received_at`,
   * whatever its value, is kept) and written as the latest reading under
   * `_device_key` of the stamped reading. Then the history line is
   * appended; where building it raises, the latest reading stays written
   * and the request fails with an internal error.
   */
  method Ingest(body: JsonDoc, now: int) returns (written: Option<Ingested>, r: Result<(), Fault>)
    ensures !body.Object? ==> written.None? && r == Err(InvalidJson)
    ensures body.Object? ==> written.Some? && written.value.latest == StampReceived(body.rec, now)
    ensures written.Some? ==> (written.value.key == DeviceKey.DeviceKeyOf(written.value.latest)
      && DeviceKey.IsSafeKey(written.value.key))
    ensures written.Some? ==> written.value.appended == HistoryRecordOf(written.value.latest, now)
    ensures body.Object? ==> (r == Ok(()) <==> written.value.appended.Some?)
    ensures body.Object? && r.Err? ==> r.error == InternalError
  {
    if !body.Object? {
      return None, Err(InvalidJson);
    }
    var payload := body.rec;
    if "received_at" !in payload {
      payload := payload["received_at" := Int(now)];
    }
    var key := DeviceKey.DeviceKeyOf(payload);
    var line := HistoryRecordOf(payload, now);
    written := Some(Ingested(key, payload, line));
    if line.None? {
      return written, Err(InternalError);
    }
    r := Ok(());
  }

  /** Stamping is idempotent: a reading is never re-stamped, whatever the later clock says. */
  lemma {:induction false} StampNeverOverwrites(payload: Record, now: int, later: int)
    ensures StampReceived(StampReceived(payload, now), later) == StampReceived(payload, now)
  {
  }
}

// src/pyvider/state_stores/types.py: the lease value and its stored form.
module Options {
  datatype Option<+T> = None | Some(value: T)
}

// Text arrives as protobuf strings, which are valid UTF-8; it is modelled by its UTF-8 bytes.
module Texts {
  type Byte = b: int | 0 <= b < 256
  type Text = seq<Byte>
}

module StateLocks {
  import opened Options
  import opened Texts

  // One JSON scalar of a stored lease.
  datatype Json = JStr(s: Text) | JNum(r: real)

  datatype StateLock = StateLock(
    lockId: Text,
    typeName: Text,
    stateId: Text,
    operation: Text,
    holder: Text,
    acquiredAt: real,
    expiresAt: real)
  {
    // A non-positive expiry means "no expiry".
    predicate IsExpired(now: real) {
      expiresAt > 0.0 && now >= expiresAt
    }

    function ToDict(): map<string, Json> {
      map[
        "lock_id" := JStr(lockId),
        "type_name" := JStr(typeName),
        "state_id" := JStr(stateId),
        "operation" := JStr(operation),
        "holder" := JStr(holder),
        "acquired_at" := JNum(acquiredAt),
        "expires_at" := JNum(expiresAt)]
    }
  }

  // The lease lock_state builds: an expiry in the future, or none for a non-positive ttl.
  function NewLock(id: Text, typeName: Text, stateId: Text, operation: Text, holder: Text,
                   now: real, ttl: real): StateLock
  {
    StateLock(id, typeName, stateId, operation, holder, now, if ttl > 0.0 then now + ttl else 0.0)
  }

  // str(payload.get(key, "")) on a string field; other scalars are not strings this code ever stores.
  function StringField(d: map<string, Json>, key: string): Option<Text> {
    if key !in d then Some([])
    else if d[key].JStr? then Some(d[key].s)
    else None
  }

  function NumberField(d: map<string, Json>, key: string): Option<real> {
    if key !in d then Some(0.0)
    else if d[key].JNum? then Some(d[key].r)
    else None
  }

  // from_dict. None stands for a field of the wrong scalar kind.
  function FromDict(d: map<string, Json>): Option<StateLock>
    requires "lock_id" in d
  {
    var a := StringField(d, "lock_id");
    var b := StringField(d, "type_name");
    var c := StringField(d, "state_id");
    var e := StringField(d, "operation");
    var h := StringField(d, "holder");
    var t := NumberField(d, "acquired_at");
    var x := NumberField(d, "expires_at");
    if a.Some? && b.Some? && c.Some? && e.Some? && h.Some? && t.Some? && x.Some?
    then Some(StateLock(a.value, b.value, c.value, e.value, h.value, t.value, x.value))
    else None
  }

  // A stored lease reads back as the lease that was written.
  lemma DictRoundTrip(l: StateLock)
    ensures "lock_id" in l.ToDict()
    ensures FromDict(l.ToDict()) == Some(l)
  {
    var d := l.ToDict();
    assert d["lock_id"] == JStr(l.lockId);
    assert d["type_name"] == JStr(l.typeName);
    assert d["state_id"] == JStr(l.stateId);
    assert d["operation"] == JStr(l.operation);
    assert d["holder"] == JStr(l.holder);
    assert d["acquired_at"] == JNum(l.acquiredAt);
    assert d["expires_at"] == JNum(l.expiresAt);
  }

  // A fresh lease is live at every instant before now + ttl and lapsed from then on,
  // and without a positive ttl it never lapses.
  lemma NewLockExpiry(id: Text, tn: Text, sid: Text, op: Text, h: Text, now: real, ttl: real, later: real)
    requires now >= 0.0
    ensures NewLock(id, tn, sid, op, h, now, ttl).IsExpired(later) <==> ttl > 0.0 && later >= now + ttl
  {
  }

  // It names the state, the operation and the holder it was asked for, and when.
  lemma NewLockNames(id: Text, tn: Text, sid: Text, op: Text, h: Text, now: real, ttl: real)
    ensures var l := NewLock(id, tn, sid, op, h, now, ttl);
      l.lockId == id && l.typeName == tn && l.stateId == sid && l.operation == op && l.holder == h &&
      l.acquiredAt == now && (ttl > 0.0 ==> l.expiresAt == now + ttl) && (ttl <= 0.0 ==> l.expiresAt == 0.0)
  {
  }

  // A record that lacks fields reads as blank text and times of zero; one of the wrong kind does not read.
  lemma FromDictReads(d: map<string, Json>)
    requires "lock_id" in d
    ensures var texts := {"lock_id", "type_name", "state_id", "operation", "holder"};
      var times := {"acquired_at", "expires_at"};
      FromDict(d).Some? <==>
      (forall k :: k in texts && k in d ==> d[k].JStr?) && (forall k :: k in times && k in d ==> d[k].JNum?)
    ensures FromDict(d).Some? ==>
      var l := FromDict(d).value;
      l.lockId == d["lock_id"].s && l.typeName == TextAt(d, "type_name") && l.stateId == TextAt(d, "state_id") &&
      l.operation == TextAt(d, "operation") && l.holder == TextAt(d, "holder") &&
      l.acquiredAt == TimeAt(d, "acquired_at") && l.expiresAt == TimeAt(d, "expires_at")
  {
    assert FromDict(d).Some? ==> d["lock_id"].JStr?;
  }

  function TextAt(d: map<string, Json>, key: string): Text {
    if key in d && d[key].JStr? then d[key].s else []
  }

  function TimeAt(d: map<string, Json>, key: string): real {
    if key in d && d[key].JNum? then d[key].r else 0.0
  }
}

/**
  The shared cache of owner snapshots: its keys, the windows a lookup probes, and the store. Keys are
  records of tenant, operation, normalised parameters and window; the caller's scope never enters one.
*/
module ResultCache {
  import opened Wrappers
  import opened Sorting
  import opened TextOrder
  import opened Table
  import opened Progress
  import opened Footer
  import opened View
  import opened Transparency
  import opened SnapshotCodec

  datatype Mode = Off | ReadOnly | ReadWrite | Shadow {
    predicate Writes() { ReadWrite? || Shadow? }
  }

  datatype Key = Key(tenant: string, op: Operation, params: map<string, string>, window: Window)

  datatype Slot = Slot(payload: Payload, expires: int)

  datatype Policy = Policy(backtrackDays: nat, unsettledTtl: nat, settledTtl: nat, tolerance: real)

  // ---------------------------------------------------------------- key normalisation

  function Split(s: string): seq<string> {
    if s == "" then [""]
    else
      var rest := Split(s[1..]);
      if s[0] == ',' then [""] + rest else if rest == [] then [[s[0]]] else [[s[0]] + rest[0]] + rest[1..]
  }

  function Join(parts: seq<string>): string {
    if parts == [] then "" else if |parts| == 1 then parts[0] else parts[0] + "," + Join(parts[1..])
  }

  /** Enumerated values are sorted and freed of blanks and duplicates. */
  function NormalType(s: string): string { Join(Sort(Dedup(Without(Split(s), {""})), TextLe)) }

  const ViewParams: set<string> := {"dates", "datee", "orderbyFields", "orderByType"}

  function NormalParams(other: map<string, string>): map<string, string> {
    map key | key in other && key !in ViewParams :: if key == "Type" then NormalType(other[key]) else other[key]
  }

  function KeyFor(tenant: string, op: Operation, params: Params, window: Window): Key {
    Key(tenant, op, NormalParams(params.other), window)
  }

  /** Normalisation does not change which column anchors a row in time. */
  lemma AnchorSurvives(op: Operation, params: Params)
    ensures AnchorColumn(op, Params([], NormalParams(params.other))) == AnchorColumn(op, params)
  {
    assert "Flag" !in ViewParams && "Flag" != "Type";
  }

  // ---------------------------------------------------------------- candidate windows

  function PrefetchWindow(today: int, policy: Policy): Window { Window(today - policy.backtrackDays, today - 1) }

  /** Today's prefetch, yesterday's prefetch if it still covers the question, and the question itself. */
  function Candidates(today: int, policy: Policy, question: Window): seq<Window> {
    var current, previous := PrefetchWindow(today, policy), PrefetchWindow(today - 1, policy);
    var older := if Covers(previous, question) then [previous] else [];
    var settled := if Covers(current, question) then [current] + older else [];
    if question in settled then settled else settled + [question]
  }

  /** Every window that is probed contains the question, and the question's own window is probed. */
  lemma CandidatesCover(today: int, policy: Policy, question: Window)
    ensures forall w :: w in Candidates(today, policy, question) ==> Covers(w, question)
    ensures question in Candidates(today, policy, question)
    ensures 1 <= |Candidates(today, policy, question)| <= 3
  {
  }

  // ---------------------------------------------------------------- the store

  datatype Hit = Hit(rows: seq<Row>, footer: FooterMap, window: Window)

  /** A snapshot that may be served: present, unexpired and accepted under its key. */
  predicate Usable(store: map<Key, Slot>, key: Key, now: int) {
    key in store && now < store[key].expires && Accepts(store[key].payload, key.op, key.params, key.window)
  }

  function HitOf(store: map<Key, Slot>, key: Key, now: int): Hit
    requires Usable(store, key, now)
  {
    Hit(Decode(store[key].payload).value, store[key].payload.footer, key.window)
  }

  /** The first usable candidate. */
  function Lookup(store: map<Key, Slot>, tenant: string, op: Operation, params: Params, windows: seq<Window>,
                  now: int): Option<Hit> {
    if windows == [] then None
    else
      var key := KeyFor(tenant, op, params, windows[0]);
      if Usable(store, key, now) then Some(HitOf(store, key, now))
      else Lookup(store, tenant, op, params, windows[1..], now)
  }

  /** `hit` is served from the entry of the window it names. */
  ghost predicate HitIn(hit: Hit, store: map<Key, Slot>, tenant: string, op: Operation, params: Params, now: int) {
    var key := KeyFor(tenant, op, params, hit.window);
    Usable(store, key, now) && hit == HitOf(store, key, now)
  }

  lemma {:induction false} LookupFinds(store: map<Key, Slot>, tenant: string, op: Operation, params: Params,
                                       windows: seq<Window>, now: int)
    ensures var hit := Lookup(store, tenant, op, params, windows, now);
            && (hit.Some? ==> hit.value.window in windows && HitIn(hit.value, store, tenant, op, params, now))
            && (hit.None? ==> forall w :: w in windows ==> !Usable(store, KeyFor(tenant, op, params, w), now))
  {
    if windows != [] {
      LookupFinds(store, tenant, op, params, windows[1..], now);
      assert windows == [windows[0]] + windows[1..];
    }
  }

  /** What the gate let through: clean, anchored, normalised detail that reconciled with its footer. */
  ghost predicate Admitted(key: Key, payload: Payload, tolerance: real) {
    exists rows, params: Params ::
      && Gate(key.op, rows, payload.footer, params, tolerance)
      && key.params == NormalParams(params.other)
      && payload == Encode(key.op, Detail(rows, key.op).value, payload.footer, key.window, key.params)
  }

  ghost predicate AllAdmitted(store: map<Key, Slot>, tolerance: real) {
    forall key :: key in store ==> Admitted(key, store[key].payload, tolerance)
  }

  /** The checks before a write, which yield the normalised detail. */
  method PassGate(op: Operation, rows: seq<Row>, footer: FooterMap, params: Params, tolerance: real)
    returns (detail: Option<seq<Row>>)
    ensures detail == if Gate(op, rows, footer, params, tolerance) then Detail(rows, op) else None
  {
    if !CleanRequest(params) || !NoCredentials(ColumnsOf(rows)) || !NoCredentials(footer.Keys) {
      return None;
    }
    var reconciles := FooterReconciles(rows, footer, tolerance);
    if !reconciles {
      return None;
    }
    var normal := rows;
    if op.ProgressOp? {
      var derived := DeriveProgressRows(rows);
      if derived.Err? {
        return None;
      }
      normal := derived.value;
    }
    return if Anchored(normal, op, params) then Some(normal) else None;
  }

  lemma GatedIsAdmitted(store: map<Key, Slot>, key: Key, rows: seq<Row>, footer: FooterMap, params: Params,
                        tolerance: real, expires: int)
    requires AllAdmitted(store, tolerance) && Gate(key.op, rows, footer, params, tolerance)
    requires key.params == NormalParams(params.other)
    ensures AllAdmitted(store[key := Slot(Encode(key.op, Detail(rows, key.op).value, footer, key.window, key.params),
                                          expires)], tolerance)
  {
    var payload := Encode(key.op, Detail(rows, key.op).value, footer, key.window, key.params);
    assert payload.footer == footer;
    assert Admitted(key, payload, tolerance);
  }

  class Snapshots {
    var store: map<Key, Slot>
    const policy: Policy

    constructor (policy: Policy)
      ensures this.policy == policy && store == map[] && Valid()
    {
      this.policy := policy;
      store := map[];
    }

    /** Every entry, whenever it was written, came through the gate. */
    ghost predicate Valid()
      reads this
    {
      AllAdmitted(store, policy.tolerance)
    }

    method Read(tenant: string, op: Operation, params: Params, question: Window, today: int, now: int)
      returns (hit: Option<Hit>)
      ensures hit == Lookup(store, tenant, op, params, Candidates(today, policy, question), now)
    {
      var windows := Candidates(today, policy, question);
      for i := 0 to |windows|
        invariant Lookup(store, tenant, op, params, windows, now) ==
                  Lookup(store, tenant, op, params, windows[i..], now)
      {
        var key := KeyFor(tenant, op, params, windows[i]);
        assert windows[i..][1..] == windows[i + 1..];
        if key in store && now < store[key].expires {
          var payload := store[key].payload;
          if Accepts(payload, key.op, key.params, key.window) {
            return Some(Hit(Decode(payload).value, payload.footer, key.window));
          }
        }
      }
      return None;
    }

    /** `up` is whether the store takes the write. */
    method Write(tenant: string, op: Operation, rows: seq<Row>, footer: FooterMap, params: Params, window: Window,
                 today: int, now: int, up: bool)
      returns (written: bool)
      requires Valid()
      modifies this
      ensures Valid()
      ensures written <==> up && Gate(op, rows, footer, params, policy.tolerance)
      ensures !written ==> store == old(store)
      ensures written ==>
                store == old(store)[KeyFor(tenant, op, params, window) :=
                  Slot(Encode(op, Detail(rows, op).value, footer, window, NormalParams(params.other)),
                       now + (if today <= window.to then policy.unsettledTtl else policy.settledTtl))]
    {
      var detail := PassGate(op, rows, footer, params, policy.tolerance);
      if detail.None? || !up {
        return false;
      }
      var ttl := if window.to >= today then policy.unsettledTtl else policy.settledTtl;
      var key := KeyFor(tenant, op, params, window);
      var payload := EncodePayload(op, detail.value, footer, window, key.params);
      GatedIsAdmitted(store, key, rows, footer, params, policy.tolerance, now + ttl);
      store := store[key := Slot(payload, now + ttl)];
      return true;
    }

    method Evict(tenant: string, op: Operation, params: Params, window: Window)
      requires Valid()
      modifies this
      ensures Valid()
      ensures store == old(store) - {KeyFor(tenant, op, params, window)}
    {
      store := store - {KeyFor(tenant, op, params, window)};
    }
  }
}

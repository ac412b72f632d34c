/**
 The REST idempotency middleware over its in-memory store. The SHA-256 digest, the problem
 encoder and what the handler does with its ResponseWriter are parameters.
 */
module RestIdempotency {
  import opened Common

  type Bytes = seq<bv8>
  type Headers = map<string, string>

  /** The codes net/http accepts. */
  type Code = c: int | 100 <= c <= 999 witness 200

  const DEFAULT_TTL: int := 86_400_000_000_000  // 24 hours, in nanoseconds
  const MAX_BODY_BYTES: int := 1_048_576
  const HASH_HEADER := "Idempotency-Hash"
  const REPLAY_HEADER := "Idempotent-Replay"
  const RECORDED_HEADERS: seq<string> := ["Content-Type", "Link", "Location", "X-Request-Id"]

  // ----- the response on the wire -----

  /** A net/http ResponseWriter: `sent` are the headers as of the final status line. */
  datatype Wire = Wire(headers: Headers, status: Option<Code>, sent: Headers, body: Bytes)

  predicate Informational(code: Code) {
    100 <= code <= 199 && code != 101
  }

  function WireSet(w: Wire, name: string, value: string): Wire {
    w.(headers := w.headers[name := value])
  }

  function WireHeader(w: Wire, code: Code): Wire {
    if w.status.Some? || Informational(code) then w else w.(status := Some(code), sent := w.headers)
  }

  function WireWrite(w: Wire, p: Bytes): Wire {
    var w := if w.status.None? then WireHeader(w, 200) else w;
    w.(body := w.body + p)
  }

  /** The status the client sees once the handler has returned. */
  function FinalStatus(w: Wire): Code {
    if w.status.Some? then w.status.value else 200
  }

  datatype HandlerAction =
    | SetHeader(name: string, value: string)
    | WriteHeader(code: Code)
    | Write(p: Bytes)

  function WireAct(w: Wire, a: HandlerAction): Wire {
    match a
    case SetHeader(name, value) => WireSet(w, name, value)
    case WriteHeader(code) => WireHeader(w, code)
    case Write(p) => WireWrite(w, p)
  }

  /** The handler writing straight to the client. */
  function Direct(w: Wire, actions: seq<HandlerAction>): Wire
    decreases |actions|
  {
    if actions == [] then w else Direct(WireAct(w, actions[0]), actions[1..])
  }

  // ----- the recording writer -----

  datatype Tape = Tape(target: Wire, statusCode: Code, wroteHeader: bool, body: Bytes)

  function NewTape(w: Wire): Tape {
    Tape(w, 200, false, [])
  }

  function TapeHeader(r: Tape, code: Code): Tape {
    if r.wroteHeader then r else Tape(WireHeader(r.target, code), code, true, r.body)
  }

  function TapeAct(r: Tape, a: HandlerAction): Tape {
    match a
    case SetHeader(name, value) => r.(target := WireSet(r.target, name, value))
    case WriteHeader(code) => TapeHeader(r, code)
    case Write(p) =>
      var r' := TapeHeader(r, 200);
      r'.(target := WireWrite(r'.target, p), body := r'.body + p)
  }

  function Recorded(r: Tape, actions: seq<HandlerAction>): Tape
    decreases |actions|
  {
    if actions == [] then r else Recorded(TapeAct(r, actions[0]), actions[1..])
  }

  predicate ShouldCache(r: Tape) {
    200 <= r.statusCode < 500
  }

  predicate TapeOk(r: Tape) {
    && r.body == r.target.body
    && (!r.wroteHeader ==> r.statusCode == 200 && r.target.status.None?)
    && (r.wroteHeader && !Informational(r.statusCode) ==> r.target.status == Some(r.statusCode))
    && (r.wroteHeader && Informational(r.statusCode) && r.target.status.Some? ==> r.target.status == Some(200))
  }

  lemma {:induction false} RecordedOk(r: Tape, actions: seq<HandlerAction>)
    requires TapeOk(r)
    ensures TapeOk(Recorded(r, actions))
    decreases |actions|
  {
    if actions != [] {
      RecordedOk(TapeAct(r, actions[0]), actions[1..]);
    }
  }

  /** What is recorded for replay is what the client was sent. */
  lemma RecordingIsFaithful(w: Wire, actions: seq<HandlerAction>)
    requires w.status.None? && w.body == []
    ensures var r := Recorded(NewTape(w), actions);
      && r.body == r.target.body
      && (ShouldCache(r) ==> FinalStatus(r.target) == r.statusCode)
  {
    RecordedOk(NewTape(w), actions);
  }

  predicate NoInformational(actions: seq<HandlerAction>) {
    forall i :: 0 <= i < |actions| && actions[i].WriteHeader? ==> !Informational(actions[i].code)
  }

  /** For handlers without informational statuses the recorder is invisible to the client. */
  lemma {:induction false} RecorderIsTransparent(r: Tape, actions: seq<HandlerAction>)
    requires NoInformational(actions)
    requires r.wroteHeader <==> r.target.status.Some?
    ensures Recorded(r, actions).target == Direct(r.target, actions)
    decreases |actions|
  {
    if actions != [] {
      assert NoInformational(actions[1..]);
      assert actions[0].WriteHeader? ==> !Informational(actions[0].code);
      RecorderIsTransparent(TapeAct(r, actions[0]), actions[1..]);
    }
  }

  /** An informational status first makes the recorder swallow the final one. */
  lemma EarlyHintsLoseTheStatus(w: Wire)
    requires w.status.None?
    ensures var actions := [WriteHeader(103), WriteHeader(404)];
      && FinalStatus(Direct(w, actions)) == 404
      && FinalStatus(Recorded(NewTape(w), actions).target) == 200
      && !ShouldCache(Recorded(NewTape(w), actions))
  {
    var actions := [WriteHeader(103), WriteHeader(404)];
    assert actions[1..] == [WriteHeader(404)] && actions[1..][1..] == [];
    assert Direct(w, actions) == Direct(w, [WriteHeader(404)]) == WireHeader(w, 404);
    assert Recorded(NewTape(w), actions) == Recorded(TapeHeader(NewTape(w), 103), [WriteHeader(404)]);
  }

  /** The handler announces an informational status before anything else it writes. */
  predicate HintsFirst(actions: seq<HandlerAction>) {
    actions != [] &&
      match actions[0]
      case SetHeader(_, _) => HintsFirst(actions[1..])
      case WriteHeader(code) => Informational(code)
      case Write(_) => false
  }

  /** The status the handler means: its first final one, or 200 if a body comes first. */
  function IntendedStatus(actions: seq<HandlerAction>): Code {
    if actions == [] then 200
    else
      match actions[0]
      case SetHeader(_, _) => IntendedStatus(actions[1..])
      case WriteHeader(code) => if Informational(code) then IntendedStatus(actions[1..]) else code
      case Write(_) => 200
  }

  lemma {:induction false} StatusSticks(w: Wire, actions: seq<HandlerAction>)
    requires w.status.Some?
    ensures Direct(w, actions).status == w.status
    decreases |actions|
  {
    if actions != [] {
      StatusSticks(WireAct(w, actions[0]), actions[1..]);
    }
  }

  lemma {:induction false} DirectStatus(w: Wire, actions: seq<HandlerAction>)
    requires w.status.None?
    ensures FinalStatus(Direct(w, actions)) == IntendedStatus(actions)
    decreases |actions|
  {
    if actions != [] {
      var w' := WireAct(w, actions[0]);
      if w'.status.None? { DirectStatus(w', actions[1..]); } else { StatusSticks(w', actions[1..]); }
    }
  }

  /** Once the recorder has seen a status it passes no other on. */
  lemma {:induction false} RecordedStatusSticks(r: Tape, actions: seq<HandlerAction>)
    requires r.wroteHeader
    ensures FinalStatus(Recorded(r, actions).target) == FinalStatus(r.target)
    decreases |actions|
  {
    if actions != [] {
      RecordedStatusSticks(TapeAct(r, actions[0]), actions[1..]);
    }
  }

  lemma {:induction false} RecordedStatus(r: Tape, actions: seq<HandlerAction>)
    requires !r.wroteHeader && r.target.status.None?
    ensures FinalStatus(Recorded(r, actions).target) == if HintsFirst(actions) then 200 else IntendedStatus(actions)
    decreases |actions|
  {
    if actions != [] {
      var r' := TapeAct(r, actions[0]);
      if r'.wroteHeader { RecordedStatusSticks(r', actions[1..]); } else { RecordedStatus(r', actions[1..]); }
    }
  }

  /** Exactly when the recorder leaves the status alone. */
  lemma RecorderKeepsStatus(w: Wire, actions: seq<HandlerAction>)
    requires w.status.None?
    ensures FinalStatus(Recorded(NewTape(w), actions).target) == FinalStatus(Direct(w, actions))
      <==> !HintsFirst(actions) || IntendedStatus(actions) == 200
  {
    DirectStatus(w, actions);
    RecordedStatus(NewTape(w), actions);
  }

  lemma {:induction false} CodeSticks(r: Tape, actions: seq<HandlerAction>)
    requires r.wroteHeader
    ensures Recorded(r, actions).statusCode == r.statusCode
    decreases |actions|
  {
    if actions != [] {
      CodeSticks(TapeAct(r, actions[0]), actions[1..]);
    }
  }

  lemma {:induction false} RecordedCode(r: Tape, actions: seq<HandlerAction>)
    requires !r.wroteHeader && r.statusCode == 200
    ensures var code := Recorded(r, actions).statusCode;
      if HintsFirst(actions) then Informational(code) else code == IntendedStatus(actions)
    decreases |actions|
  {
    if actions != [] {
      var r' := TapeAct(r, actions[0]);
      if r'.wroteHeader { CodeSticks(r', actions[1..]); } else { RecordedCode(r', actions[1..]); }
    }
  }

  /** What a handler has to do for its response to be kept for a retry. */
  predicate Recordable(actions: seq<HandlerAction>) {
    !HintsFirst(actions) && 200 <= IntendedStatus(actions) < 500
  }

  /** Exactly when a response is recorded, in terms of the handler's own calls. */
  lemma RecordedExactlyWhenRecordable(w: Wire, actions: seq<HandlerAction>)
    ensures ShouldCache(Recorded(NewTape(w), actions)) <==> Recordable(actions)
  {
    RecordedCode(NewTape(w), actions);
  }

  /** The body bytes a handler writes, one after the other. */
  function Written(actions: seq<HandlerAction>): Bytes {
    if actions == [] then []
    else (if actions[0].Write? then actions[0].p else []) + Written(actions[1..])
  }

  lemma {:induction false} RecordedBody(r: Tape, actions: seq<HandlerAction>)
    ensures Recorded(r, actions).body == r.body + Written(actions)
    decreases |actions|
  {
    if actions != [] {
      RecordedBody(TapeAct(r, actions[0]), actions[1..]);
    }
  }

  /** The response of a recordable handler, on the tape and at the client. */
  lemma RecordableResponse(w: Wire, actions: seq<HandlerAction>)
    requires w.status.None? && w.body == [] && Recordable(actions)
    ensures var r := Recorded(NewTape(w), actions);
      && r.statusCode == FinalStatus(r.target) == IntendedStatus(actions)
      && r.body == r.target.body == Written(actions)
  {
    RecordingIsFaithful(w, actions);
    RecordedExactlyWhenRecordable(w, actions);
    RecordedCode(NewTape(w), actions);
    RecordedBody(NewTape(w), actions);
  }

  // ----- recorded headers -----

  datatype HeaderKV = HeaderKV(key: string, value: string)

  function AllowListed(h: Headers, names: seq<string>): seq<HeaderKV> {
    if names == [] then []
    else (if names[0] in h && h[names[0]] != "" then [HeaderKV(names[0], h[names[0]])] else [])
         + AllowListed(h, names[1..])
  }

  function SetAll(h: Headers, kvs: seq<HeaderKV>): Headers
    decreases |kvs|
  {
    if kvs == [] then h else SetAll(h[kvs[0].key := kvs[0].value], kvs[1..])
  }

  lemma {:induction false} SetAllRestores(h: Headers, base: Headers, names: seq<string>, name: string)
    requires forall i, j :: 0 <= i < j < |names| ==> names[i] != names[j]
    ensures var r := SetAll(base, AllowListed(h, names));
      if name in names && name in h && h[name] != ""
      then name in r && r[name] == h[name]
      else (name in r <==> name in base) && (name in base ==> r[name] == base[name])
    decreases |names|
  {
    if names != [] {
      var rest := AllowListed(h, names[1..]);
      if names[0] in h && h[names[0]] != "" {
        assert AllowListed(h, names)[1..] == rest;
        SetAllRestores(h, base[names[0] := h[names[0]]], names[1..], name);
      } else {
        assert AllowListed(h, names) == rest;
        SetAllRestores(h, base, names[1..], name);
      }
    }
  }

  // ----- the store -----

  datatype Entry = Entry(status: Code, bodyHash: string, body: Bytes, headers: seq<HeaderKV>, savedAt: int)

  datatype Timed = Timed(entry: Entry, expireAt: int)

  type Entries = map<string, Timed>

  /** The entries a lookup at `now` can find. */
  function Live(entries: Entries, now: int): Entries {
    map k | k in entries && now <= entries[k].expireAt :: entries[k]
  }

  /** Lazy eviction: a lookup that hits an expired entry drops it. */
  function Evicted(entries: Entries, key: string, now: int): Entries {
    if key in entries && now > entries[key].expireAt then entries - {key} else entries
  }

  class MemoryStore {
    var entries: Entries

    constructor ()
      ensures entries == map[]
    {
      entries := map[];
    }

    method Lookup(key: string, now: int) returns (entry: Option<Entry>)
      modifies this
      ensures entry == if key in Live(old(entries), now) then Some(old(entries)[key].entry) else None
      ensures entries == Evicted(old(entries), key, now)
      ensures forall other :: other != key ==> (other in entries <==> other in old(entries))
      ensures key in entries <==> key in old(entries) && now <= old(entries)[key].expireAt
      ensures forall k :: k in entries ==> entries[k] == old(entries)[k]
      ensures entry.Some? <==> key in old(entries) && now <= old(entries)[key].expireAt
      ensures entry.Some? ==> entry.value == old(entries)[key].entry
    {
      if key !in entries { return None; }
      if now > entries[key].expireAt {
        entries := entries - {key};
        return None;
      }
      return Some(entries[key].entry);
    }

    method Save(key: string, entry: Entry, ttl: int, now: int)
      modifies this
      ensures entries == old(entries)[key := Timed(entry, now + (if ttl <= 0 then 86_400_000_000_000 else ttl))]
    {
      var keep := ttl;
      if keep <= 0 {
        keep := DEFAULT_TTL;
      }
      entries := entries[key := Timed(entry, now + keep)];
    }
  }

  // ----- the middleware as a function -----

  /** `body` is None when reading it fails; the clock is read at `lookupAt`, `savedAt` and `storedAt`. */
  datatype Request = Request(
    key: string,
    body: Option<Bytes>,
    actions: seq<HandlerAction>,
    lookupAt: int,
    savedAt: int,
    storedAt: int)

  datatype Config = Config(ttl: int, required: bool, hash: Bytes -> string, problem: int -> Bytes)

  datatype Served = Served(entries: Entries, wire: Wire, ran: bool)

  function ProblemWire(cfg: Config, w: Wire, status: Code): Wire {
    WireWrite(WireHeader(WireSet(w, "Content-Type", "application/problem+json"), status), cfg.problem(status))
  }

  function ReplayWire(w: Wire, entry: Entry, hash: string): Wire {
    var h := SetAll(w.headers, entry.headers)[HASH_HEADER := hash][REPLAY_HEADER := "true"];
    WireWrite(WireHeader(w.(headers := h), entry.status), entry.body)
  }

  predicate Readable(req: Request) {
    req.body.Some? && |req.body.value| <= MAX_BODY_BYTES
  }

  function NewEntry(cfg: Config, req: Request, r: Tape): Entry
    requires Readable(req)
  {
    Entry(r.statusCode, cfg.hash(req.body.value), r.body, AllowListed(r.target.headers, RECORDED_HEADERS), req.savedAt)
  }

  /** What one request does to the store and to its client. */
  function Serve(cfg: Config, entries: Entries, w: Wire, req: Request): Served
    requires cfg.ttl > 0
  {
    if req.key == "" then
      if cfg.required then Served(entries, ProblemWire(cfg, w, 400), false)
      else Served(entries, Direct(w, req.actions), true)
    else if !Readable(req) then Served(entries, ProblemWire(cfg, w, 400), false)
    else if req.key in Live(entries, req.lookupAt) then
      var entry := entries[req.key].entry;
      if entry.bodyHash != cfg.hash(req.body.value) then Served(entries, ProblemWire(cfg, w, 409), false)
      else Served(entries, ReplayWire(w, entry, cfg.hash(req.body.value)), false)
    else
      var r := Recorded(NewTape(w), req.actions);
      var kept := Evicted(entries, req.key, req.lookupAt);
      Served(if ShouldCache(r)
             then kept[req.key := Timed(NewEntry(cfg, req, r), req.storedAt + cfg.ttl)] else kept,
             r.target, true)
  }

  datatype Decision = Refuse(status: Code) | PassThrough | RunAndRecord | Repeat(entry: Entry)

  /** The promise of the header, over the entries alive at the time of the request. */
  function Decide(cfg: Config, live: Entries, req: Request): Decision {
    if req.key == "" then if cfg.required then Refuse(400) else PassThrough
    else if !Readable(req) then Refuse(400)
    else if req.key !in live then RunAndRecord
    else if live[req.key].entry.bodyHash == cfg.hash(req.body.value) then Repeat(live[req.key].entry)
    else Refuse(409)
  }

  /** A timed map that never forgets: the small machine a client may reason with. */
  function ServeTimed(cfg: Config, ledger: Entries, w: Wire, req: Request): Served
    requires cfg.ttl > 0
  {
    match Decide(cfg, Live(ledger, req.lookupAt), req)
    case Refuse(status) => Served(ledger, ProblemWire(cfg, w, status), false)
    case PassThrough => Served(ledger, Direct(w, req.actions), true)
    case Repeat(entry) => Served(ledger, ReplayWire(w, entry, entry.bodyHash), false)
    case RunAndRecord =>
      var r := Recorded(NewTape(w), req.actions);
      Served(if ShouldCache(r) then ledger[req.key := Timed(NewEntry(cfg, req, r), req.storedAt + cfg.ttl)] else ledger,
             r.target, true)
  }

  // ----- the middleware as code -----

  class ResponseWriter {
    var headers: Headers
    var status: Option<Code>
    var sent: Headers
    var body: Bytes

    constructor (headers: Headers)
      ensures State() == Wire(headers, None, map[], [])
    {
      this.headers, status, sent, body := headers, None, map[], [];
    }

    function State(): Wire
      reads this
    {
      Wire(headers, status, sent, body)
    }

    method Set(name: string, value: string)
      modifies this
      ensures State() == WireSet(old(State()), name, value)
    {
      headers := headers[name := value];
    }

    method WriteHeader(code: Code)
      modifies this
      ensures State() == WireHeader(old(State()), code)
    {
      if status.Some? || Informational(code) { return; }
      status, sent := Some(code), headers;
    }

    method Write(p: Bytes)
      modifies this
      ensures State() == WireWrite(old(State()), p)
    {
      if status.None? { WriteHeader(200); }
      body := body + p;
    }
  }

  class RecordingResponseWriter {
    const target: ResponseWriter
    var body: Bytes
    var statusCode: Code
    var wroteHeader: bool

    constructor (target: ResponseWriter)
      ensures this.target == target && State() == NewTape(target.State())
    {
      this.target, body, statusCode, wroteHeader := target, [], 200, false;
    }

    function State(): Tape
      reads this, target
    {
      Tape(target.State(), statusCode, wroteHeader, body)
    }

    method Set(name: string, value: string)
      modifies target
      ensures State() == TapeAct(old(State()), SetHeader(name, value))
    {
      target.Set(name, value);
    }

    method WriteHeader(code: Code)
      modifies this, target
      ensures State() == TapeHeader(old(State()), code)
    {
      if wroteHeader { return; }
      wroteHeader := true;
      statusCode := code;
      target.WriteHeader(code);
    }

    method Write(p: Bytes)
      modifies this, target
      ensures State() == TapeAct(old(State()), HandlerAction.Write(p))
    {
      if !wroteHeader { WriteHeader(200); }
      body := body + p;
      target.Write(p);
    }

    method RecordedHeaders() returns (out: seq<HeaderKV>)
      ensures out == AllowListed(target.headers, RECORDED_HEADERS)
    {
      out := PickHeaders(target.headers, RECORDED_HEADERS);
    }
  }

  lemma AllowListedStep(h: Headers, names: seq<string>, i: nat)
    requires i < |names|
    ensures AllowListed(h, names[i..])
         == (if names[i] in h && h[names[i]] != "" then [HeaderKV(names[i], h[names[i]])] else [])
            + AllowListed(h, names[i + 1..])
  {
    assert names[i..][1..] == names[i + 1..];
  }

  /** The loop over the allow-list. */
  method PickHeaders(h: Headers, names: seq<string>) returns (out: seq<HeaderKV>)
    ensures out == AllowListed(h, names)
  {
    out := [];
    assert names[0..] == names && AllowListed(h, names[|names|..]) == [];
    hide AllowListed;
    var i := 0;
    while i < |names|
      invariant 0 <= i <= |names|
      invariant out + AllowListed(h, names[i..]) == AllowListed(h, names)
    {
      AllowListedStep(h, names, i);
      if names[i] in h && h[names[i]] != "" {
        Regroup(out, [HeaderKV(names[i], h[names[i]])], AllowListed(h, names[i + 1..]));
        out := out + [HeaderKV(names[i], h[names[i]])];
      }
      i := i + 1;
    }
  }

  /** The wrapped handler, through the recorder or not. */
  method ServeRecorded(rec: RecordingResponseWriter, actions: seq<HandlerAction>)
    modifies rec, rec.target
    ensures rec.State() == Recorded(old(rec.State()), actions)
  {
    var i := 0;
    while i < |actions|
      invariant 0 <= i <= |actions|
      invariant Recorded(rec.State(), actions[i..]) == Recorded(old(rec.State()), actions)
    {
      assert actions[i..][1..] == actions[i + 1..];
      match actions[i] {
        case SetHeader(name, value) => rec.Set(name, value);
        case WriteHeader(code) => rec.WriteHeader(code);
        case Write(p) => rec.Write(p);
      }
      i := i + 1;
    }
  }

  method ServeDirect(w: ResponseWriter, actions: seq<HandlerAction>)
    modifies w
    ensures w.State() == Direct(old(w.State()), actions)
  {
    var i := 0;
    while i < |actions|
      invariant 0 <= i <= |actions|
      invariant Direct(w.State(), actions[i..]) == Direct(old(w.State()), actions)
    {
      assert actions[i..][1..] == actions[i + 1..];
      match actions[i] {
        case SetHeader(name, value) => w.Set(name, value);
        case WriteHeader(code) => w.WriteHeader(code);
        case Write(p) => w.Write(p);
      }
      i := i + 1;
    }
  }

  class Middleware {
    const cfg: Config
    const store: MemoryStore

    constructor (store: MemoryStore, ttl: int, required: bool, hash: Bytes -> string, problem: int -> Bytes)
      ensures this.store == store && cfg.ttl > 0
      ensures cfg.ttl == if ttl <= 0 then 86_400_000_000_000 else ttl
      ensures cfg == Config(if ttl <= 0 then DEFAULT_TTL else ttl, required, hash, problem)
    {
      this.store := store;
      cfg := Config(if ttl <= 0 then DEFAULT_TTL else ttl, required, hash, problem);
    }

    method WriteProblem(w: ResponseWriter, status: Code)
      modifies w
      ensures w.State() == ProblemWire(cfg, old(w.State()), status)
    {
      w.Set("Content-Type", "application/problem+json");
      w.WriteHeader(status);
      w.Write(cfg.problem(status));
    }

    method Replay(w: ResponseWriter, entry: Entry, hash: string)
      modifies w
      ensures w.State() == ReplayWire(old(w.State()), entry, hash)
    {
      var i := 0;
      while i < |entry.headers|
        invariant 0 <= i <= |entry.headers|
        invariant w.State() == old(w.State()).(headers := w.headers)
        invariant SetAll(w.headers, entry.headers[i..]) == SetAll(old(w.headers), entry.headers)
      {
        assert entry.headers[i..][1..] == entry.headers[i + 1..];
        w.Set(entry.headers[i].key, entry.headers[i].value);
        i := i + 1;
      }
      w.Set(HASH_HEADER, hash);
      w.Set(REPLAY_HEADER, "true");
      w.WriteHeader(entry.status);
      w.Write(entry.body);
    }

    method Handle(w: ResponseWriter, req: Request) returns (ran: bool)
      requires cfg.ttl > 0
      modifies w, store
      ensures Served(store.entries, w.State(), ran) == Serve(cfg, old(store.entries), old(w.State()), req)
    {
      if req.key == "" {
        if cfg.required {
          WriteProblem(w, 400);
          return false;
        }
        ServeDirect(w, req.actions);
        return true;
      }
      if req.body.None? || |req.body.value| > MAX_BODY_BYTES {
        WriteProblem(w, 400);
        return false;
      }
      var hash := cfg.hash(req.body.value);
      var entry := store.Lookup(req.key, req.lookupAt);
      if entry.Some? {
        if entry.value.bodyHash != hash {
          WriteProblem(w, 409);
          return false;
        }
        Replay(w, entry.value, hash);
        return false;
      }
      var rec := new RecordingResponseWriter(w);
      ServeRecorded(rec, req.actions);
      if 200 <= rec.statusCode < 500 {
        var kvs := rec.RecordedHeaders();
        store.Save(req.key, Entry(rec.statusCode, hash, rec.body, kvs, req.savedAt), cfg.ttl, req.storedAt);
      }
      return true;
    }
  }

  // ----- what a client can rely on -----

  /**
   A keyed request whose body cannot be read, or is over the limit, gets a fresh 400, runs
   nothing and leaves the store alone; and no other keyed request does.
   */
  lemma UnreadableIsRefused(cfg: Config, entries: Entries, w: Wire, req: Request)
    requires cfg.ttl > 0 && req.key != "" && w.status.None? && "Idempotent-Replay" !in w.headers
    ensures var s := Serve(cfg, entries, w, req);
      (req.body.None? || |req.body.value| > 1_048_576) <==>
        && !s.ran && s.entries == entries
        && FinalStatus(s.wire) == 400 && "Idempotent-Replay" !in s.wire.sent
  {
  }

  /** Without a key the middleware passes the request through, or refuses it if a key is required. */
  lemma WithoutKey(cfg: Config, entries: Entries, w: Wire, req: Request)
    requires cfg.ttl > 0 && req.key == "" && w.status.None? && w.body == []
    ensures var s := Serve(cfg, entries, w, req);
      && s.entries == entries && s.ran == !cfg.required
      && FinalStatus(s.wire) == (if cfg.required then 400 else IntendedStatus(req.actions))
      && s.wire.body == (if cfg.required then cfg.problem(400) else Written(req.actions))
  {
    DirectStatus(w, req.actions);
    DirectBody(w, req.actions);
  }

  lemma {:induction false} DirectBody(w: Wire, actions: seq<HandlerAction>)
    ensures Direct(w, actions).body == w.body + Written(actions)
    decreases |actions|
  {
    if actions != [] {
      DirectBody(WireAct(w, actions[0]), actions[1..]);
    }
  }

  /** Two stores that no lookup from `now` on can tell apart. */
  ghost predicate Agree(a: Entries, b: Entries, now: int) {
    forall t :: now <= t ==> Live(a, t) == Live(b, t)
  }

  lemma AgreeOnKey(a: Entries, b: Entries, now: int, key: string)
    requires Agree(a, b, now)
    ensures key in Live(a, now) <==> key in Live(b, now)
    ensures key in Live(a, now) ==> a[key] == b[key]
  {
    assert Live(a, now) == Live(b, now);
  }

  predicate TimesOk(req: Request) {
    req.lookupAt <= req.savedAt <= req.storedAt
  }

  lemma EvictedIsInvisible(entries: Entries, key: string, now: int, t: int)
    requires now <= t
    ensures Live(Evicted(entries, key, now), t) == Live(entries, t)
  {
  }

  lemma StoringKeepsAgreement(a: Entries, b: Entries, key: string, e: Timed, t: int)
    requires Live(a, t) == Live(b, t)
    ensures Live(a[key := e], t) == Live(b[key := e], t)
  {
    assert forall k :: k in a && t <= a[k].expireAt <==> k in Live(a, t);
    assert forall k :: k in b && t <= b[k].expireAt <==> k in Live(b, t);
    assert forall k :: k in Live(a, t) ==> a[k] == Live(b, t)[k] == b[k];
  }

  /** Lazy eviction is unobservable: the store answers like the map that never forgets. */
  lemma EvictionIsUnobservable(cfg: Config, entries: Entries, ledger: Entries, w: Wire, req: Request)
    requires cfg.ttl > 0 && Agree(entries, ledger, req.lookupAt)
    ensures var s, s' := Serve(cfg, entries, w, req), ServeTimed(cfg, ledger, w, req);
      s.wire == s'.wire && s.ran == s'.ran && Agree(s.entries, s'.entries, req.lookupAt)
  {
    AgreeOnKey(entries, ledger, req.lookupAt, req.key);
    var s, s' := Serve(cfg, entries, w, req), ServeTimed(cfg, ledger, w, req);
    forall t | req.lookupAt <= t ensures Live(s.entries, t) == Live(s'.entries, t) {
      assert Live(entries, t) == Live(ledger, t);
      EvictedIsInvisible(entries, req.key, req.lookupAt, t);
      if s.ran && req.key != "" && ShouldCache(Recorded(NewTape(w), req.actions)) {
        StoringKeepsAgreement(Evicted(entries, req.key, req.lookupAt), ledger, req.key, s.entries[req.key], t);
      }
    }
  }

  datatype Exchange = Exchange(wire: Wire, req: Request)

  predicate InOrder(now: int, xs: seq<Exchange>)
    decreases |xs|
  {
    xs != [] ==> now <= xs[0].req.lookupAt && TimesOk(xs[0].req) && InOrder(xs[0].req.storedAt, xs[1..])
  }

  /** The replies of a sequential run. */
  function Run(cfg: Config, entries: Entries, xs: seq<Exchange>): seq<Served>
    requires cfg.ttl > 0
    decreases |xs|
  {
    if xs == [] then []
    else
      var s := Serve(cfg, entries, xs[0].wire, xs[0].req);
      [s] + Run(cfg, s.entries, xs[1..])
  }

  function RunTimed(cfg: Config, ledger: Entries, xs: seq<Exchange>): seq<Served>
    requires cfg.ttl > 0
    decreases |xs|
  {
    if xs == [] then []
    else
      var s := ServeTimed(cfg, ledger, xs[0].wire, xs[0].req);
      [s] + RunTimed(cfg, s.entries, xs[1..])
  }

  lemma {:induction false} RunRefinesTimedMap(cfg: Config, entries: Entries, ledger: Entries, now: int, xs: seq<Exchange>)
    requires cfg.ttl > 0 && Agree(entries, ledger, now) && InOrder(now, xs)
    ensures var a, b := Run(cfg, entries, xs), RunTimed(cfg, ledger, xs);
      |a| == |b| == |xs| && forall i :: 0 <= i < |xs| ==> a[i].wire == b[i].wire && a[i].ran == b[i].ran
    decreases |xs|
  {
    if xs != [] {
      var s, s' := Serve(cfg, entries, xs[0].wire, xs[0].req), ServeTimed(cfg, ledger, xs[0].wire, xs[0].req);
      EvictionIsUnobservable(cfg, entries, ledger, xs[0].wire, xs[0].req);
      RunRefinesTimedMap(cfg, s.entries, s'.entries, xs[0].req.storedAt, xs[1..]);
    }
  }

  lemma {:induction false} RunLength(cfg: Config, entries: Entries, xs: seq<Exchange>)
    requires cfg.ttl > 0
    ensures |Run(cfg, entries, xs)| == |xs|
    decreases |xs|
  {
    if xs != [] {
      RunLength(cfg, Serve(cfg, entries, xs[0].wire, xs[0].req).entries, xs[1..]);
    }
  }

  /** The store that request `i` of a run finds. */
  function Before(cfg: Config, entries: Entries, xs: seq<Exchange>, i: nat): Entries
    requires cfg.ttl > 0 && i <= |xs|
    decreases i
  {
    if i == 0 then entries else Before(cfg, Serve(cfg, entries, xs[0].wire, xs[0].req).entries, xs[1..], i - 1)
  }

  lemma {:induction false} RunAt(cfg: Config, entries: Entries, xs: seq<Exchange>, i: nat)
    requires cfg.ttl > 0 && i < |xs|
    ensures |Run(cfg, entries, xs)| == |xs|
    ensures Run(cfg, entries, xs)[i] == Serve(cfg, Before(cfg, entries, xs, i), xs[i].wire, xs[i].req)
    ensures Before(cfg, entries, xs, i + 1) == Run(cfg, entries, xs)[i].entries
    decreases i
  {
    RunLength(cfg, entries, xs);
    var rest := Serve(cfg, entries, xs[0].wire, xs[0].req).entries;
    if i > 0 {
      RunAt(cfg, rest, xs[1..], i - 1);
    } else {
      assert Before(cfg, rest, xs[1..], 0) == rest;
    }
  }

  lemma {:induction false} LaterInOrder(now: int, xs: seq<Exchange>, j: nat)
    requires InOrder(now, xs) && j < |xs|
    ensures now <= xs[j].req.lookupAt && TimesOk(xs[j].req)
    ensures j > 0 ==> xs[0].req.storedAt <= xs[j].req.lookupAt
    decreases |xs|
  {
    if j > 0 {
      LaterInOrder(xs[0].req.storedAt, xs[1..], j - 1);
    }
  }

  lemma {:induction false} SuffixInOrder(now: int, xs: seq<Exchange>, i: nat)
    requires InOrder(now, xs) && i < |xs|
    ensures InOrder(xs[i].req.storedAt, xs[i + 1..])
    decreases |xs|
  {
    if i > 0 {
      SuffixInOrder(xs[0].req.storedAt, xs[1..], i - 1);
      assert xs[1..][i..] == xs[i + 1..];
    }
  }

  // ----- when the handler runs -----

  /** The exchange left a recording under `key` that a lookup at `t` can still find. */
  predicate Records(cfg: Config, x: Exchange, s: Served, key: string, t: int) {
    && x.req.key == key && s.ran && Recordable(x.req.actions)
    && t <= x.req.storedAt + cfg.ttl
  }

  predicate RecordedBefore(cfg: Config, xs: seq<Exchange>, run: seq<Served>, j: nat, key: string, t: int)
    requires j <= |xs| == |run|
  {
    exists i :: 0 <= i < j && Records(cfg, xs[i], run[i], key, t)
  }

  lemma OneMoreExchange(cfg: Config, entries: Entries, x: Exchange, key: string, t: int)
    requires cfg.ttl > 0 && key != "" && x.req.lookupAt <= t
    ensures var s := Serve(cfg, entries, x.wire, x.req);
      key in Live(s.entries, t) <==> key in Live(entries, t) || Records(cfg, x, s, key, t)
  {
    RecordedExactlyWhenRecordable(x.wire, x.req.actions);
  }

  lemma RecordedBeforeShifts(cfg: Config, xs: seq<Exchange>, run: seq<Served>, j: nat, key: string, t: int)
    requires 0 < j <= |xs| == |run|
    ensures RecordedBefore(cfg, xs, run, j, key, t)
      <==> Records(cfg, xs[0], run[0], key, t) || RecordedBefore(cfg, xs[1..], run[1..], j - 1, key, t)
  {
    if RecordedBefore(cfg, xs, run, j, key, t) {
      var i :| 0 <= i < j && Records(cfg, xs[i], run[i], key, t);
      if i > 0 { assert Records(cfg, xs[1..][i - 1], run[1..][i - 1], key, t); }
    }
    if RecordedBefore(cfg, xs[1..], run[1..], j - 1, key, t) {
      var i :| 0 <= i < j - 1 && Records(cfg, xs[1..][i], run[1..][i], key, t);
      assert Records(cfg, xs[i + 1], run[i + 1], key, t);
    }
  }

  lemma {:induction false} LiveExactlyWhenRecorded(
      cfg: Config, entries: Entries, now: int, xs: seq<Exchange>, j: nat, key: string, t: int)
    requires cfg.ttl > 0 && InOrder(now, xs) && j <= |xs| && key != ""
    requires j < |xs| ==> t == xs[j].req.lookupAt
    requires j > 0 ==> xs[j - 1].req.lookupAt <= t
    ensures |Run(cfg, entries, xs)| == |xs|
    ensures key in Live(Before(cfg, entries, xs, j), t)
      <==> key in Live(entries, t) || RecordedBefore(cfg, xs, Run(cfg, entries, xs), j, key, t)
    decreases j
  {
    RunLength(cfg, entries, xs);
    if j > 0 {
      hide Serve, Records, Live;
      var s := Serve(cfg, entries, xs[0].wire, xs[0].req);
      LaterInOrder(now, xs, j - 1);
      OneMoreExchange(cfg, entries, xs[0], key, t);
      LiveExactlyWhenRecorded(cfg, s.entries, xs[0].req.storedAt, xs[1..], j - 1, key, t);
      assert Run(cfg, entries, xs)[1..] == Run(cfg, s.entries, xs[1..]);
      RecordedBeforeShifts(cfg, xs, Run(cfg, entries, xs), j, key, t);
    }
  }

  /**
   Over every run from an empty store: a request runs its handler if and only if no earlier
   request of its key ran, was recordable and was stored within the TTL.
   */
  lemma RunsExactlyWhenNothingRecorded(cfg: Config, now: int, xs: seq<Exchange>, j: nat)
    requires cfg.ttl > 0 && InOrder(now, xs) && j < |xs|
    requires xs[j].req.key != "" && Readable(xs[j].req)
    ensures |Run(cfg, map[], xs)| == |xs|
    ensures var run := Run(cfg, map[], xs);
      run[j].ran <==> !RecordedBefore(cfg, xs, run, j, xs[j].req.key, xs[j].req.lookupAt)
  {
    RunAt(cfg, map[], xs, j);
    if j > 0 {
      SuffixInOrder(now, xs, j - 1);
      LaterInOrder(now, xs, j - 1);
    }
    LiveExactlyWhenRecorded(cfg, map[], now, xs, j, xs[j].req.key, xs[j].req.lookupAt);
  }

  /** 103 then 200: the client gets its 200, but nothing is kept and the retry runs again. */
  lemma HintedOkRunsAgain(cfg: Config, wire: Wire, key: string, body: Bytes)
    requires cfg.ttl > 0 && key != "" && |body| <= MAX_BODY_BYTES && wire.status.None?
    ensures var x := Exchange(wire, Request(key, Some(body), [WriteHeader(103), WriteHeader(200)], 0, 0, 0));
      var run := Run(cfg, map[], [x, x]);
      && |run| == 2 && run[0].ran && run[1].ran
      && FinalStatus(run[0].wire) == FinalStatus(run[1].wire) == 200
      && run[1].entries == map[]
  {
    var actions := [WriteHeader(103), WriteHeader(200)];
    var x := Exchange(wire, Request(key, Some(body), actions, 0, 0, 0));
    RecordedExactlyWhenRecordable(wire, actions);
    assert HintsFirst(actions);
    RecordedStatus(NewTape(wire), actions);
    assert Serve(cfg, map[], wire, x.req).entries == map[];
    assert [x, x][1..] == [x] && [x][1..] == [];
    assert Run(cfg, map[], [x]) == [Serve(cfg, map[], wire, x.req)];
  }

  // ----- what a recording answers -----

  /** An entry that is still unexpired at `t` survives every request before `t`. */
  lemma StaysLive(cfg: Config, entries: Entries, w: Wire, req: Request, key: string, t: int)
    requires cfg.ttl > 0 && req.lookupAt <= t && key != "" && key in Live(entries, t)
    ensures key in Live(Serve(cfg, entries, w, req).entries, t)
    ensures Serve(cfg, entries, w, req).entries[key] == entries[key]
  {
  }

  lemma {:induction false} StaysLiveOverRun(
      cfg: Config, entries: Entries, now: int, xs: seq<Exchange>, key: string, j: nat)
    requires cfg.ttl > 0 && InOrder(now, xs) && key != "" && j < |xs|
    requires key in Live(entries, xs[j].req.lookupAt)
    ensures key in Live(Before(cfg, entries, xs, j), xs[j].req.lookupAt)
    ensures Before(cfg, entries, xs, j)[key] == entries[key]
    decreases j
  {
    if j > 0 {
      LaterInOrder(now, xs, j);
      StaysLive(cfg, entries, xs[0].wire, xs[0].req, key, xs[j].req.lookupAt);
      StaysLiveOverRun(cfg, Serve(cfg, entries, xs[0].wire, xs[0].req).entries, xs[0].req.storedAt, xs[1..], key, j - 1);
    }
  }

  lemma {:induction false} BeforeSplits(cfg: Config, entries: Entries, xs: seq<Exchange>, i: nat, j: nat)
    requires cfg.ttl > 0 && i <= j <= |xs|
    ensures Before(cfg, entries, xs, j) == Before(cfg, Before(cfg, entries, xs, i), xs[i..], j - i)
    decreases i
  {
    if i > 0 {
      BeforeSplits(cfg, Serve(cfg, entries, xs[0].wire, xs[0].req).entries, xs[1..], i - 1, j - 1);
      assert xs[1..][i - 1..] == xs[i..];
    } else {
      assert xs[0..] == xs;
    }
  }

  /** What request `i` keeps for the retries of its key. */
  function Kept(cfg: Config, x: Exchange): Entry
    requires Readable(x.req)
  {
    NewEntry(cfg, x.req, Recorded(NewTape(x.wire), x.req.actions))
  }

  lemma RunningKeeps(cfg: Config, entries: Entries, x: Exchange)
    requires cfg.ttl > 0 && x.req.key != "" && Recordable(x.req.actions)
    requires Serve(cfg, entries, x.wire, x.req).ran
    ensures Readable(x.req)
    ensures var after := Serve(cfg, entries, x.wire, x.req).entries;
      x.req.key in after && after[x.req.key] == Timed(Kept(cfg, x), x.req.storedAt + cfg.ttl)
  {
    RecordedExactlyWhenRecordable(x.wire, x.req.actions);
  }

  /** What is stored, field by field. */
  lemma KeptFields(cfg: Config, entries: Entries, x: Exchange)
    requires cfg.ttl > 0 && x.req.key != "" && Recordable(x.req.actions)
    requires x.wire.status.None? && x.wire.body == []
    requires Serve(cfg, entries, x.wire, x.req).ran
    ensures var after := Serve(cfg, entries, x.wire, x.req).entries;
      && x.req.key in after
      && var e := after[x.req.key];
      && e.expireAt == x.req.storedAt + cfg.ttl
      && e.entry.status == IntendedStatus(x.req.actions) && e.entry.body == Written(x.req.actions)
      && x.req.body.Some? && e.entry.bodyHash == cfg.hash(x.req.body.value) && e.entry.savedAt == x.req.savedAt
      && (forall k :: k != x.req.key ==> (k in after <==> k in entries) && (k in after ==> after[k] == entries[k]))
  {
    RunningKeeps(cfg, entries, x);
    RecordableResponse(x.wire, x.req.actions);
  }

  /**
   Whatever comes in between, a recording answers every later request of its key within the
   TTL: the same digest is replayed, any other is refused, and the handler does not run.
   */
  lemma RecordingAnswers(cfg: Config, entries: Entries, now: int, xs: seq<Exchange>, i: nat, j: nat)
    requires cfg.ttl > 0 && InOrder(now, xs) && i < j < |xs|
    requires xs[j].req.key != "" && Readable(xs[j].req)
    requires |Run(cfg, entries, xs)| == |xs|
    requires Records(cfg, xs[i], Run(cfg, entries, xs)[i], xs[j].req.key, xs[j].req.lookupAt)
    ensures Readable(xs[i].req)
    ensures var s, kept, hash := Run(cfg, entries, xs)[j], Kept(cfg, xs[i]), cfg.hash(xs[j].req.body.value);
      && !s.ran
      && s.wire == if kept.bodyHash == hash then ReplayWire(xs[j].wire, kept, hash)
                   else ProblemWire(cfg, xs[j].wire, 409)
  {
    var key, t := xs[j].req.key, xs[j].req.lookupAt;
    RunAt(cfg, entries, xs, i);
    RunAt(cfg, entries, xs, j);
    var after := Before(cfg, entries, xs, i + 1);
    RunningKeeps(cfg, Before(cfg, entries, xs, i), xs[i]);
    SuffixInOrder(now, xs, i);
    hide Run, InOrder, Recordable, Serve, Recorded;
    BeforeSplits(cfg, entries, xs, i + 1, j);
    StaysLiveOverRun(cfg, after, xs[i].req.storedAt, xs[i + 1..], key, j - i - 1);
    LiveEntryAnswers(cfg, Before(cfg, entries, xs, j), xs[j].wire, xs[j].req);
  }

  lemma LiveEntryAnswers(cfg: Config, entries: Entries, w: Wire, req: Request)
    requires cfg.ttl > 0 && req.key != "" && Readable(req) && req.key in Live(entries, req.lookupAt)
    ensures var s, kept, hash := Serve(cfg, entries, w, req), entries[req.key].entry, cfg.hash(req.body.value);
      && !s.ran
      && s.wire == if kept.bodyHash == hash then ReplayWire(w, kept, hash) else ProblemWire(cfg, w, 409)
  {
  }

  /**
   The contract of the Idempotency-Key header: once a request was run and recorded, the same
   key and body within the TTL gets the exact status and body first sent, which are the
   handler's own, whatever other requests came in between, and the handler does not run.
   */
  lemma ReplayIsExact(cfg: Config, entries: Entries, now: int, xs: seq<Exchange>, i: nat, j: nat)
    requires cfg.ttl > 0 && InOrder(now, xs) && i < j < |xs|
    requires xs[i].wire.status.None? && xs[i].wire.body == [] && xs[j].wire.status.None? && xs[j].wire.body == []
    requires xs[j].req.key != "" && Readable(xs[j].req) && xs[j].req.body == xs[i].req.body
    requires |Run(cfg, entries, xs)| == |xs|
    requires Records(cfg, xs[i], Run(cfg, entries, xs)[i], xs[j].req.key, xs[j].req.lookupAt)
    ensures var first, again := Run(cfg, entries, xs)[i], Run(cfg, entries, xs)[j];
      && !again.ran
      && FinalStatus(again.wire) == FinalStatus(first.wire) == IntendedStatus(xs[i].req.actions)
      && again.wire.body == first.wire.body == Written(xs[i].req.actions)
  {
    RecordingAnswers(cfg, entries, now, xs, i, j);
    RunAt(cfg, entries, xs, i);
    RecordableResponse(xs[i].wire, xs[i].req.actions);
  }

  /** Another body under a recorded key is refused with 409 for as long as the recording lives. */
  lemma ConflictIsRefused(cfg: Config, entries: Entries, now: int, xs: seq<Exchange>, i: nat, j: nat)
    requires cfg.ttl > 0 && InOrder(now, xs) && i < j < |xs| && xs[j].wire.status.None?
    requires xs[j].req.key != "" && Readable(xs[j].req)
    requires |Run(cfg, entries, xs)| == |xs|
    requires Records(cfg, xs[i], Run(cfg, entries, xs)[i], xs[j].req.key, xs[j].req.lookupAt)
    requires Readable(xs[i].req) && cfg.hash(xs[i].req.body.value) != cfg.hash(xs[j].req.body.value)
    ensures var s := Run(cfg, entries, xs)[j];
      && !s.ran && FinalStatus(s.wire) == 409
      && s.wire.body == xs[j].wire.body + cfg.problem(409)
      && "Content-Type" in s.wire.sent && s.wire.sent["Content-Type"] == "application/problem+json"
  {
    RecordingAnswers(cfg, entries, now, xs, i, j);
  }

  /**
   A request that runs no handler changes nothing for anybody: a refusal, a conflict or a
   replay can be struck from the run and every other reply stays the same.
   */
  lemma {:induction false} AnswersAreInvisible(cfg: Config, entries: Entries, xs: seq<Exchange>, j: nat)
    requires cfg.ttl > 0 && j < |xs|
    requires |Run(cfg, entries, xs)| == |xs| && !Run(cfg, entries, xs)[j].ran
    ensures Run(cfg, entries, Without(xs, j)) == Without(Run(cfg, entries, xs), j)
    decreases j
  {
    var s := Serve(cfg, entries, xs[0].wire, xs[0].req);
    var run := Run(cfg, entries, xs);
    assert run == [s] + Run(cfg, s.entries, xs[1..]);
    if j == 0 {
      assert s.entries == entries;
      assert Without(xs, 0) == xs[1..] && Without(run, 0) == run[1..];
    } else {
      hide Serve;
      RunLength(cfg, s.entries, xs[1..]);
      AnswersAreInvisible(cfg, s.entries, xs[1..], j - 1);
      WithoutBehindHead(xs, j);
      WithoutBehindHead(run, j);
    }
  }

  /** The sequence with its `j`-th element struck out. */
  function Without<T>(xs: seq<T>, j: nat): seq<T>
    requires j < |xs|
  {
    xs[..j] + xs[j + 1..]
  }

  lemma WithoutBehindHead<T>(xs: seq<T>, j: nat)
    requires 0 < j < |xs|
    ensures Without(xs, j) == [xs[0]] + Without(xs[1..], j - 1)
    ensures Without(xs, j)[0] == xs[0] && Without(xs, j)[1..] == Without(xs[1..], j - 1)
  {
  }

  predicate FinalClientOutcomes(entries: Entries) {
    forall key :: key in entries ==> 200 <= entries[key].entry.status < 500
  }

  lemma ServeKeepsFinalClientOutcomes(cfg: Config, entries: Entries, w: Wire, req: Request)
    requires cfg.ttl > 0 && FinalClientOutcomes(entries)
    ensures FinalClientOutcomes(Serve(cfg, entries, w, req).entries)
  {
  }

  /** Along every run from an empty store, only statuses 200 to 499 are ever in the store. */
  lemma {:induction false} OnlyFinalClientOutcomesRecorded(cfg: Config, xs: seq<Exchange>, i: nat)
    requires cfg.ttl > 0 && i <= |xs|
    ensures FinalClientOutcomes(Before(cfg, map[], xs, i))
  {
    if i > 0 {
      OnlyFinalClientOutcomesRecorded(cfg, xs, i - 1);
      RunAt(cfg, map[], xs, i - 1);
      ServeKeepsFinalClientOutcomes(cfg, Before(cfg, map[], xs, i - 1), xs[i - 1].wire, xs[i - 1].req);
    }
  }

  /** No header is set after the first write. */
  predicate HeadersSettled(actions: seq<HandlerAction>) {
    forall i, j :: 0 <= i < j < |actions| && !actions[i].SetHeader? ==> !actions[j].SetHeader?
  }

  lemma {:induction false} SettledHeaders(r: Tape, actions: seq<HandlerAction>)
    requires HeadersSettled(actions)
    requires r.wroteHeader ==> forall i :: 0 <= i < |actions| ==> !actions[i].SetHeader?
    requires r.target.status.Some? ==> r.wroteHeader && r.target.sent == r.target.headers
    ensures var w := Recorded(r, actions).target; w.status.Some? ==> w.sent == w.headers
    decreases |actions|
  {
    if actions != [] {
      var r' := TapeAct(r, actions[0]);
      assert forall i :: 0 <= i < |actions[1..]| ==> actions[1..][i] == actions[i + 1];
      SettledHeaders(r', actions[1..]);
    }
  }

  /** What Get answers: a missing header reads as the empty value. */
  function ValueOf(h: Headers, name: string): string {
    if name in h then h[name] else ""
  }

  /** The headers the client sees once the handler has returned. */
  function SentHeaders(w: Wire): Headers {
    if w.status.Some? then w.sent else w.headers
  }

  /** The headers after all calls of the handler. */
  function HeadersAfter(h: Headers, actions: seq<HandlerAction>): Headers
    decreases |actions|
  {
    if actions == [] then h
    else HeadersAfter(if actions[0].SetHeader? then h[actions[0].name := actions[0].value] else h, actions[1..])
  }

  /** The headers at the handler's first write, or at its return if it writes nothing. */
  function HeadersAtFirstWrite(h: Headers, actions: seq<HandlerAction>): Headers
    decreases |actions|
  {
    if actions == [] || !actions[0].SetHeader? then h
    else HeadersAtFirstWrite(h[actions[0].name := actions[0].value], actions[1..])
  }

  lemma {:induction false} HeadersOnTape(r: Tape, actions: seq<HandlerAction>)
    ensures Recorded(r, actions).target.headers == HeadersAfter(r.target.headers, actions)
    decreases |actions|
  {
    if actions != [] {
      HeadersOnTape(TapeAct(r, actions[0]), actions[1..]);
    }
  }

  lemma {:induction false} SentSticks(r: Tape, actions: seq<HandlerAction>)
    requires r.target.status.Some?
    ensures var w := Recorded(r, actions).target; w.status.Some? && w.sent == r.target.sent
    decreases |actions|
  {
    if actions != [] {
      SentSticks(TapeAct(r, actions[0]), actions[1..]);
    }
  }

  lemma {:induction false} SentOnTape(r: Tape, actions: seq<HandlerAction>)
    requires !r.wroteHeader && r.target.status.None? && !HintsFirst(actions)
    ensures SentHeaders(Recorded(r, actions).target) == HeadersAtFirstWrite(r.target.headers, actions)
    decreases |actions|
  {
    if actions != [] {
      var r' := TapeAct(r, actions[0]);
      if r'.target.status.Some? { SentSticks(r', actions[1..]); } else { SentOnTape(r', actions[1..]); }
    }
  }

  /**
   Exactly when a replay carries an allow-listed header as first sent: when the handler's
   calls after its first write have left its value alone.
   */
  lemma ReplayedHeaders(cfg: Config, entries: Entries, now: int, xs: seq<Exchange>, i: nat, j: nat, name: string)
    requires cfg.ttl > 0 && InOrder(now, xs) && i < j < |xs|
    requires xs[i].wire.status.None? && xs[j].wire.status.None? && name !in xs[j].wire.headers
    requires xs[j].req.key != "" && Readable(xs[j].req) && xs[j].req.body == xs[i].req.body
    requires |Run(cfg, entries, xs)| == |xs|
    requires Records(cfg, xs[i], Run(cfg, entries, xs)[i], xs[j].req.key, xs[j].req.lookupAt)
    requires name in RECORDED_HEADERS
    ensures var first, again := Run(cfg, entries, xs)[i], Run(cfg, entries, xs)[j];
      var h, actions := xs[i].wire.headers, xs[i].req.actions;
      ValueOf(SentHeaders(again.wire), name) == ValueOf(SentHeaders(first.wire), name)
      <==> ValueOf(HeadersAfter(h, actions), name) == ValueOf(HeadersAtFirstWrite(h, actions), name)
  {
    RecordingAnswers(cfg, entries, now, xs, i, j);
    RunAt(cfg, entries, xs, i);
    var tape := NewTape(xs[i].wire);
    HeadersOnTape(tape, xs[i].req.actions);
    SentOnTape(tape, xs[i].req.actions);
    RecordedExactlyWhenRecordable(xs[i].wire, xs[i].req.actions);
    ReplayRestores(xs[j].wire, Kept(cfg, xs[i]), HeadersAfter(xs[i].wire.headers, xs[i].req.actions), name);
  }

  /** A replay says that it is one, and for which body. */
  lemma ReplayIsMarked(cfg: Config, entries: Entries, now: int, xs: seq<Exchange>, i: nat, j: nat)
    requires cfg.ttl > 0 && InOrder(now, xs) && i < j < |xs| && xs[j].wire.status.None?
    requires xs[j].req.key != "" && Readable(xs[j].req) && xs[j].req.body == xs[i].req.body
    requires |Run(cfg, entries, xs)| == |xs|
    requires Records(cfg, xs[i], Run(cfg, entries, xs)[i], xs[j].req.key, xs[j].req.lookupAt)
    ensures var sent := SentHeaders(Run(cfg, entries, xs)[j].wire);
      && "Idempotent-Replay" in sent && sent["Idempotent-Replay"] == "true"
      && "Idempotency-Hash" in sent && sent["Idempotency-Hash"] == cfg.hash(xs[j].req.body.value)
  {
    RecordingAnswers(cfg, entries, now, xs, i, j);
    RecordedExactlyWhenRecordable(xs[i].wire, xs[i].req.actions);
  }

  /** The curated headers by name: these four are replayed, and no other header of the handler is. */
  lemma CuratedHeaders(w: Wire, kept: Entry, h: Headers, name: string)
    requires w.status.None? && !Informational(kept.status)
    requires kept.headers == AllowListed(h, RECORDED_HEADERS)
    requires name != "Idempotency-Hash" && name != "Idempotent-Replay"
    ensures ValueOf(SentHeaders(ReplayWire(w, kept, kept.bodyHash)), name)
      == if name in {"Content-Type", "Link", "Location", "X-Request-Id"} && ValueOf(h, name) != ""
         then ValueOf(h, name) else ValueOf(w.headers, name)
  {
    assert name in RECORDED_HEADERS <==> name in {"Content-Type", "Link", "Location", "X-Request-Id"} by {
      assert RECORDED_HEADERS[0] == "Content-Type" && RECORDED_HEADERS[1] == "Link";
      assert RECORDED_HEADERS[2] == "Location" && RECORDED_HEADERS[3] == "X-Request-Id";
    }
    SetAllRestores(h, w.headers, RECORDED_HEADERS, name);
  }

  /** Over every run: which headers a replay carries, by name. */
  lemma ReplayCarriesTheCurated(cfg: Config, entries: Entries, now: int, xs: seq<Exchange>, i: nat, j: nat, name: string)
    requires cfg.ttl > 0 && InOrder(now, xs) && i < j < |xs|
    requires xs[i].wire.status.None? && xs[j].wire.status.None?
    requires xs[j].req.key != "" && Readable(xs[j].req) && xs[j].req.body == xs[i].req.body
    requires |Run(cfg, entries, xs)| == |xs|
    requires Records(cfg, xs[i], Run(cfg, entries, xs)[i], xs[j].req.key, xs[j].req.lookupAt)
    requires name != "Idempotency-Hash" && name != "Idempotent-Replay"
    ensures var value := ValueOf(HeadersAfter(xs[i].wire.headers, xs[i].req.actions), name);
      ValueOf(SentHeaders(Run(cfg, entries, xs)[j].wire), name)
      == if name in {"Content-Type", "Link", "Location", "X-Request-Id"} && value != ""
         then value else ValueOf(xs[j].wire.headers, name)
  {
    RecordingAnswers(cfg, entries, now, xs, i, j);
    HeadersOnTape(NewTape(xs[i].wire), xs[i].req.actions);
    RecordedExactlyWhenRecordable(xs[i].wire, xs[i].req.actions);
    CuratedHeaders(xs[j].wire, Kept(cfg, xs[i]), HeadersAfter(xs[i].wire.headers, xs[i].req.actions), name);
  }

  lemma ReplayRestores(w: Wire, kept: Entry, h: Headers, name: string)
    requires w.status.None? && name !in w.headers && name in RECORDED_HEADERS
    requires kept.headers == AllowListed(h, RECORDED_HEADERS) && !Informational(kept.status)
    ensures ValueOf(SentHeaders(ReplayWire(w, kept, kept.bodyHash)), name) == ValueOf(h, name)
  {
    SetAllRestores(h, w.headers, RECORDED_HEADERS, name);
  }

  /** A header set after the body was begun is not sent the first time, but is on the retry. */
  lemma LateHeaderIsReplayed(cfg: Config, key: string, body: Bytes)
    requires cfg.ttl > 0 && key != "" && |body| <= MAX_BODY_BYTES
    ensures var actions := [Write([1]), SetHeader("Location", "/a")];
      var x := Exchange(Wire(map[], None, map[], []), Request(key, Some(body), actions, 0, 0, 0));
      var run := Run(cfg, map[], [x, x]);
      && Recordable(actions) && |run| == 2 && run[0].ran && !run[1].ran
      && "Location" !in SentHeaders(run[0].wire)
      && "Location" in SentHeaders(run[1].wire) && SentHeaders(run[1].wire)["Location"] == "/a"
  {
    var actions := [Write([1]), SetHeader("Location", "/a")];
    var x := Exchange(Wire(map[], None, map[], []), Request(key, Some(body), actions, 0, 0, 0));
    var xs, run := [x, x], Run(cfg, map[], [x, x]);
    assert actions[1..] == [SetHeader("Location", "/a")] && actions[1..][1..] == [];
    assert xs[1..] == [x] && xs[1..][1..] == [];
    RunAt(cfg, map[], xs, 0);
    assert Before(cfg, map[], xs, 0) == map[];
    var r := Recorded(NewTape(x.wire), actions);
    HeadersOnTape(NewTape(x.wire), actions);
    SentOnTape(NewTape(x.wire), actions);
    assert HeadersAfter(map[], actions) == map["Location" := "/a"];
    assert RECORDED_HEADERS[2] == "Location";
    assert InOrder(0, [x]) && InOrder(0, xs);
    RecordingAnswers(cfg, map[], 0, xs, 0, 1);
    RecordedExactlyWhenRecordable(x.wire, actions);
    ReplayRestores(x.wire, Kept(cfg, x), map["Location" := "/a"], "Location");
  }

  /** So a replay carries the allow-listed headers as first sent, if the handler set them before it wrote. */
  lemma SettledHeadersAreReplayed(cfg: Config, entries: Entries, now: int, xs: seq<Exchange>, i: nat, j: nat, name: string)
    requires cfg.ttl > 0 && InOrder(now, xs) && i < j < |xs|
    requires xs[i].wire.status.None? && xs[j].wire.status.None?
    requires xs[j].req.key != "" && Readable(xs[j].req) && xs[j].req.body == xs[i].req.body
    requires |Run(cfg, entries, xs)| == |xs|
    requires Records(cfg, xs[i], Run(cfg, entries, xs)[i], xs[j].req.key, xs[j].req.lookupAt)
    requires HeadersSettled(xs[i].req.actions) && name in RECORDED_HEADERS
    ensures var first, again := Run(cfg, entries, xs)[i], Run(cfg, entries, xs)[j];
      first.wire.status.Some? && name in first.wire.sent && first.wire.sent[name] != "" ==>
        name in again.wire.sent && again.wire.sent[name] == first.wire.sent[name]
  {
    RecordingAnswers(cfg, entries, now, xs, i, j);
    RunAt(cfg, entries, xs, i);
    var r := Recorded(NewTape(xs[i].wire), xs[i].req.actions);
    SettledHeaders(NewTape(xs[i].wire), xs[i].req.actions);
    SetAllRestores(r.target.headers, xs[j].wire.headers, RECORDED_HEADERS, name);
    RecordedExactlyWhenRecordable(xs[i].wire, xs[i].req.actions);
  }
}

/** The API's hand-written JSON printers, and what a JSON parser recovers from their output. */
module ApiJson {
  import opened Events
  import opened Json
  import Api

  // The printers.

  method JsonEscape(input: string) returns (r: string)
    ensures r == Escape(input)
  {
    r := [];
    for i := 0 to |input|
      invariant r == Escape(input[..i])
    {
      var c := input[i];
      EscapeSnoc(input[..i], c);
      assert input[..i + 1] == input[..i] + [c];
      if c == '\"' {
        r := r + "\\\"";
      } else if c == '\\' {
        r := r + "\\\\";
      } else if c == '\U{8}' {
        r := r + "\\b";
      } else if c == '\U{C}' {
        r := r + "\\f";
      } else if c == '\n' {
        r := r + "\\n";
      } else if c == '\r' {
        r := r + "\\r";
      } else if c == '\t' {
        r := r + "\\t";
      } else if c < '\U{20}' {
        r := r + " ";
      } else {
        r := r + [c];
      }
    }
    assert input[..|input|] == input;
  }

  lemma {:induction false} EscapeSnoc(s: string, c: char)
    ensures Escape(s + [c]) == Escape(s) + EscapeChar(c)
  {
    if s == [] {
      assert s + [c] == [c] && [c][1..] == [];
    } else {
      EscapeSnoc(s[1..], c);
      assert (s + [c])[1..] == s[1..] + [c];
      Assoc(EscapeChar(s[0]), Escape(s[1..]), EscapeChar(c));
    }
  }

  function BoolToJson(b: bool): string {
    if b then "true" else "false"
  }

  /** A field as the printers write it: the key unescaped, texts escaped between quotes. */
  function FieldJson(m: Member): string {
    ['\"'] + (m.key + ['\"', ':']) + ScalarJson(m.value)
  }

  function ScalarJson(v: Value): string {
    match v
    case Text(s) => ['\"'] + (Escape(s) + ['\"'])
    case Bool(b) => BoolToJson(b)
    case Int(n) => PrintInt(n)
    case _ => Print(v)
  }

  function FieldsJson(ms: seq<Member>): string {
    if ms == [] then []
    else if |ms| == 1 then FieldJson(ms[0])
    else FieldJson(ms[0]) + ([','] + FieldsJson(ms[1..]))
  }

  function ObjectJson(ms: seq<Member>): string {
    ['{'] + (FieldsJson(ms) + ['}'])
  }

  function EntryFields(log: Api.LogEntry): seq<Member> {
    [Member("id", Text(log.id)),
     Member("time", Text(log.time)),
     Member("type", Text(log.kind)),
     Member("message", Text(log.message)),
     Member("extra", Text(log.extra))]
  }

  function SystemFields(s: Api.Status): seq<Member> {
    [Member("systemArmed", Bool(s.guard.systemArmed)),
     Member("alarmActive", Bool(s.guard.alarmActive)),
     Member("doorOpen", Bool(s.guard.doorOpen)),
     Member("lockState", Text(s.lockState))]
  }

  function AccessFields(a: Api.Access): seq<Member> {
    [Member("lastAuthorizedMethod", Text(a.accessMethod)),
     Member("lastAuthorizedUser", Text(a.user)),
     Member("lastAuthorizationTime", Text(a.time))]
  }

  function GuardFields(g: Api.Guard): seq<Member> {
    [Member("pendingVerification", Bool(g.pending)),
     Member("intrusionDetected", Bool(g.intrusion)),
     Member("buzzerOn", Bool(g.buzzerOn)),
     Member("ledStatus", Text(g.led))]
  }

  function DeviceFields(d: Api.Devices, uptime: int): seq<Member> {
    [Member("cameraOnline", Bool(d.camera)),
     Member("nfcOnline", Bool(d.nfc)),
     Member("gpioOnline", Bool(d.gpio)),
     Member("apiOnline", Bool(d.api)),
     Member("uptimeSeconds", Int(uptime))]
  }

  function StateFields(s: Api.Status, uptime: int): seq<Member> {
    SystemFields(s) + (AccessFields(s.access) + (GuardFields(s.guard) + DeviceFields(s.devices, uptime)))
  }

  function BuildStateJson(s: Api.Status, uptime: int): string {
    ObjectJson(StateFields(s, uptime))
  }

  // What a reader recovers.

  function CleanRecord(r: Api.LogEntry): Api.LogEntry {
    Api.LogEntry(Clean(r.id), Clean(r.time), Clean(r.kind), Clean(r.message), Clean(r.extra))
  }

  function CleanStatus(s: Api.Status): Api.Status {
    s.(guard := s.guard.(led := Clean(s.guard.led)), lockState := Clean(s.lockState),
       access := Api.Access(Clean(s.access.accessMethod), Clean(s.access.user), Clean(s.access.time)))
  }

  function EntryTree(log: Api.LogEntry): Value {
    Object(EntryFields(log))
  }

  function EntryTrees(logs: seq<Api.LogEntry>): seq<Value> {
    seq(|logs|, i requires 0 <= i < |logs| => EntryTree(logs[i]))
  }

  function LogsFields(logs: seq<Api.LogEntry>): seq<Member> {
    [Member("ok", Bool(true)), Member("count", Int(|logs|)), Member("data", Array(EntryTrees(logs)))]
  }

  function CleanRecords(logs: seq<Api.LogEntry>): seq<Api.LogEntry> {
    seq(|logs|, i requires 0 <= i < |logs| => CleanRecord(logs[i]))
  }

  // Printing a literal key by hand is printing it.

  /** Characters that escaping leaves alone. */
  predicate Plain(s: string) {
    forall i :: 0 <= i < |s| ==> 'A' <= s[i] <= 'Z' || 'a' <= s[i] <= 'z'
  }

  lemma {:induction false} PlainUnchanged(s: string)
    requires Plain(s)
    ensures Escape(s) == s && Clean(s) == s
  {
    if s != [] {
      PlainUnchanged(s[1..]);
      assert 'A' <= s[0] && s[0] != '\\';
      assert s == [s[0]] + s[1..];
    }
  }

  ghost predicate PlainKeys(ms: seq<Member>) {
    forall i :: 0 <= i < |ms| ==> Plain(ms[i].key)
  }

  lemma FieldPrinted(m: Member)
    requires Plain(m.key)
    ensures FieldJson(m) == PrintMember(m) && Clean(m.key) == m.key
  {
    PlainUnchanged(m.key);
    assert ['\"', ':'] == ['\"'] + [':'];
    assert ['\"'] + (m.key + ['\"', ':']) + ScalarJson(m.value) == Quote(m.key) + ([':'] + Print(m.value));
  }

  /** A hand-printed object with plain keys is the printed object. */
  lemma {:induction false} FieldsPrinted(ms: seq<Member>)
    requires PlainKeys(ms)
    ensures FieldsJson(ms) == PrintMembers(ms)
    decreases |ms|
  {
    if ms != [] {
      FieldPrinted(ms[0]);
      FieldsPrinted(ms[1..]);
    }
  }

  lemma {:induction false} CleanedAt(ms: seq<Member>, i: nat)
    requires PlainKeys(ms)
    ensures |CleanMembers(ms)| == |ms|
    ensures i < |ms| ==> CleanMembers(ms)[i] == Member(ms[i].key, CleanValue(ms[i].value))
    decreases |ms|
  {
    if ms != [] {
      FieldPrinted(ms[0]);
      CleanedAt(ms[1..], if i > 0 then i - 1 else 0);
    }
  }

  lemma EntryKeysPlain(r: Api.LogEntry)
    ensures PlainKeys(EntryFields(r))
  {
    assert Plain("id") && Plain("time") && Plain("type") && Plain("message") && Plain("extra");
  }

  lemma SystemKeysPlain(s: Api.Status)
    ensures PlainKeys(SystemFields(s))
  {
    assert Plain("systemArmed") && Plain("alarmActive") && Plain("doorOpen") && Plain("lockState");
  }

  lemma AccessKeysPlain(a: Api.Access)
    ensures PlainKeys(AccessFields(a))
  {
    assert Plain("lastAuthorizedMethod") && Plain("lastAuthorizedUser") && Plain("lastAuthorizationTime");
  }

  lemma GuardKeysPlain(g: Api.Guard)
    ensures PlainKeys(GuardFields(g))
  {
    assert Plain("pendingVerification") && Plain("intrusionDetected") && Plain("buzzerOn") && Plain("ledStatus");
  }

  lemma DeviceKeysPlain(d: Api.Devices, uptime: int)
    ensures PlainKeys(DeviceFields(d, uptime))
  {
    assert Plain("cameraOnline") && Plain("nfcOnline") && Plain("gpioOnline") && Plain("apiOnline");
    assert Plain("uptimeSeconds");
  }

  /** Cleaning a plain-keyed object cleans its values. */
  lemma CleanedFields(ms: seq<Member>, cleaned: seq<Member>)
    requires PlainKeys(ms) && |cleaned| == |ms|
    requires forall i :: 0 <= i < |ms| ==> cleaned[i] == Member(ms[i].key, CleanValue(ms[i].value))
    ensures CleanMembers(ms) == cleaned
  {
    CleanedAt(ms, 0);
    forall i | 0 <= i < |ms| ensures CleanMembers(ms)[i] == cleaned[i] {
      CleanedAt(ms, i);
    }
  }

  lemma ObjectPrinted(ms: seq<Member>)
    requires PlainKeys(ms)
    ensures ObjectJson(ms) == Print(Object(ms)) && CleanValue(Object(ms)) == Object(CleanMembers(ms))
  {
    FieldsPrinted(ms);
  }

  lemma {:induction false} CleanConcat(a: seq<Member>, b: seq<Member>)
    ensures CleanMembers(a + b) == CleanMembers(a) + CleanMembers(b)
    decreases |a|
  {
    if a == [] {
      assert a + b == b;
    } else {
      CleanConcat(a[1..], b);
      assert (a + b)[1..] == a[1..] + b;
    }
  }

  lemma CleanedSystem(s: Api.Status)
    ensures CleanMembers(SystemFields(s)) == SystemFields(CleanStatus(s))
  {
    SystemKeysPlain(s);
    CleanedFields(SystemFields(s), SystemFields(CleanStatus(s)));
  }

  lemma CleanedAccess(a: Api.Access)
    ensures CleanMembers(AccessFields(a))
         == AccessFields(Api.Access(Clean(a.accessMethod), Clean(a.user), Clean(a.time)))
  {
    AccessKeysPlain(a);
    CleanedFields(AccessFields(a), AccessFields(Api.Access(Clean(a.accessMethod), Clean(a.user), Clean(a.time))));
  }

  lemma CleanedGuard(g: Api.Guard)
    ensures CleanMembers(GuardFields(g)) == GuardFields(g.(led := Clean(g.led)))
  {
    GuardKeysPlain(g);
    CleanedFields(GuardFields(g), GuardFields(g.(led := Clean(g.led))));
  }

  lemma CleanedDevices(d: Api.Devices, uptime: int)
    ensures CleanMembers(DeviceFields(d, uptime)) == DeviceFields(d, uptime)
  {
    DeviceKeysPlain(d, uptime);
    CleanedFields(DeviceFields(d, uptime), DeviceFields(d, uptime));
  }

  lemma PlainConcat(a: seq<Member>, b: seq<Member>)
    requires PlainKeys(a) && PlainKeys(b)
    ensures PlainKeys(a + b)
  {
  }

  /** Four groups of fields, each with its cleaned form, make one object with its cleaned form. */
  lemma CleanedGroups(a: seq<Member>, b: seq<Member>, c: seq<Member>, d: seq<Member>)
    requires PlainKeys(a) && PlainKeys(b) && PlainKeys(c) && PlainKeys(d)
    ensures PlainKeys(a + (b + (c + d)))
    ensures CleanMembers(a + (b + (c + d))) == CleanMembers(a) + (CleanMembers(b) + (CleanMembers(c) + CleanMembers(d)))
  {
    PlainConcat(c, d);
    PlainConcat(b, c + d);
    PlainConcat(a, b + (c + d));
    CleanConcat(a, b + (c + d));
    CleanConcat(b, c + d);
    CleanConcat(c, d);
  }

  lemma CleanedStatus(s: Api.Status, uptime: int)
    ensures PlainKeys(StateFields(s, uptime))
    ensures CleanMembers(StateFields(s, uptime)) == StateFields(CleanStatus(s), uptime)
  {
    SystemKeysPlain(s);
    AccessKeysPlain(s.access);
    GuardKeysPlain(s.guard);
    DeviceKeysPlain(s.devices, uptime);
    CleanedGroups(SystemFields(s), AccessFields(s.access), GuardFields(s.guard), DeviceFields(s.devices, uptime));
    CleanedSystem(s);
    CleanedAccess(s.access);
    CleanedGuard(s.guard);
    CleanedDevices(s.devices, uptime);
  }

  // A reader that knows keys only.

  function Keys(v: Value): seq<string> {
    match v
    case Object(ms) => seq(|ms|, i requires 0 <= i < |ms| => ms[i].key)
    case _ => []
  }

  /** The value of the first member with the key. */
  function Lookup(v: Value, key: string): Option<Value> {
    match v
    case Object(ms) => Find(ms, key)
    case _ => None
  }

  function Find(ms: seq<Member>, key: string): Option<Value> {
    if ms == [] then None
    else if ms[0].key == key then Some(ms[0].value)
    else Find(ms[1..], key)
  }

  /** The tree is the given state and uptime, key by key, with nothing else. */
  predicate ReadsAsState(v: Value, s: Api.Status, uptime: int) {
    && Keys(v) == ["systemArmed", "alarmActive", "doorOpen", "lockState", "lastAuthorizedMethod", "lastAuthorizedUser",
                   "lastAuthorizationTime", "pendingVerification", "intrusionDetected", "buzzerOn", "ledStatus",
                   "cameraOnline", "nfcOnline", "gpioOnline", "apiOnline", "uptimeSeconds"]
    && ReadsSystem(v, s) && ReadsAccess(v, s.access) && ReadsGuard(v, s.guard) && ReadsDevices(v, s.devices, uptime)
  }

  predicate ReadsSystem(v: Value, s: Api.Status) {
    && Lookup(v, "systemArmed") == Some(Bool(s.guard.systemArmed))
    && Lookup(v, "alarmActive") == Some(Bool(s.guard.alarmActive))
    && Lookup(v, "doorOpen") == Some(Bool(s.guard.doorOpen))
    && Lookup(v, "lockState") == Some(Text(s.lockState))
  }

  predicate ReadsAccess(v: Value, a: Api.Access) {
    && Lookup(v, "lastAuthorizedMethod") == Some(Text(a.accessMethod))
    && Lookup(v, "lastAuthorizedUser") == Some(Text(a.user))
    && Lookup(v, "lastAuthorizationTime") == Some(Text(a.time))
  }

  predicate ReadsGuard(v: Value, g: Api.Guard) {
    && Lookup(v, "pendingVerification") == Some(Bool(g.pending))
    && Lookup(v, "intrusionDetected") == Some(Bool(g.intrusion))
    && Lookup(v, "buzzerOn") == Some(Bool(g.buzzerOn))
    && Lookup(v, "ledStatus") == Some(Text(g.led))
  }

  predicate ReadsDevices(v: Value, d: Api.Devices, uptime: int) {
    && Lookup(v, "cameraOnline") == Some(Bool(d.camera))
    && Lookup(v, "nfcOnline") == Some(Bool(d.nfc))
    && Lookup(v, "gpioOnline") == Some(Bool(d.gpio))
    && Lookup(v, "apiOnline") == Some(Bool(d.api))
    && Lookup(v, "uptimeSeconds") == Some(Int(uptime))
  }

  predicate ReadsAsEntry(v: Value, e: Api.LogEntry) {
    && Keys(v) == ["id", "time", "type", "message", "extra"]
    && Lookup(v, "id") == Some(Text(e.id))
    && Lookup(v, "time") == Some(Text(e.time))
    && Lookup(v, "type") == Some(Text(e.kind))
    && Lookup(v, "message") == Some(Text(e.message))
    && Lookup(v, "extra") == Some(Text(e.extra))
  }

  /** The tree is the given entries, in order, with their number. */
  predicate ReadsAsLogs(v: Value, logs: seq<Api.LogEntry>) {
    && Keys(v) == ["ok", "count", "data"]
    && Lookup(v, "ok") == Some(Bool(true))
    && Lookup(v, "count") == Some(Int(|logs|))
    && match Lookup(v, "data")
       case Some(Array(items)) =>
         |items| == |logs| && forall i :: 0 <= i < |items| ==> ReadsAsEntry(items[i], logs[i])
       case _ => false
  }

  predicate DistinctKeys(ms: seq<Member>) {
    forall i, j :: 0 <= i < j < |ms| ==> ms[i].key != ms[j].key
  }

  lemma {:induction false} LookupAt(ms: seq<Member>, i: nat)
    requires DistinctKeys(ms) && i < |ms|
    ensures Find(ms, ms[i].key) == Some(ms[i].value)
    decreases i
  {
    if i > 0 {
      assert ms[0].key != ms[i].key;
      LookupAt(ms[1..], i - 1);
    }
  }

  lemma StateTree(s: Api.Status, uptime: int)
    ensures StateFields(s, uptime) ==
      [Member("systemArmed", Bool(s.guard.systemArmed)),
       Member("alarmActive", Bool(s.guard.alarmActive)),
       Member("doorOpen", Bool(s.guard.doorOpen)),
       Member("lockState", Text(s.lockState)),
       Member("lastAuthorizedMethod", Text(s.access.accessMethod)),
       Member("lastAuthorizedUser", Text(s.access.user)),
       Member("lastAuthorizationTime", Text(s.access.time)),
       Member("pendingVerification", Bool(s.guard.pending)),
       Member("intrusionDetected", Bool(s.guard.intrusion)),
       Member("buzzerOn", Bool(s.guard.buzzerOn)),
       Member("ledStatus", Text(s.guard.led)),
       Member("cameraOnline", Bool(s.devices.camera)),
       Member("nfcOnline", Bool(s.devices.nfc)),
       Member("gpioOnline", Bool(s.devices.gpio)),
       Member("apiOnline", Bool(s.devices.api)),
       Member("uptimeSeconds", Int(uptime))]
  {
  }

  lemma StateKeysDiffer(s: Api.Status, uptime: int)
    ensures DistinctKeys(StateFields(s, uptime))
  {
    StateTree(s, uptime);
    assert "lockState"[1] != "ledStatus"[1];
  }

  lemma FoundAt(ms: seq<Member>, i: nat, m: Member)
    requires DistinctKeys(ms) && i < |ms| && ms[i] == m
    ensures Lookup(Object(ms), m.key) == Some(m.value) && Keys(Object(ms))[i] == m.key
  {
    LookupAt(ms, i);
  }

  lemma SystemRead(s: Api.Status, uptime: int)
    ensures ReadsSystem(Object(StateFields(s, uptime)), s)
  {
    var ms := StateFields(s, uptime);
    StateKeysDiffer(s, uptime);
    FoundAt(ms, 0, Member("systemArmed", Bool(s.guard.systemArmed)));
    FoundAt(ms, 1, Member("alarmActive", Bool(s.guard.alarmActive)));
    FoundAt(ms, 2, Member("doorOpen", Bool(s.guard.doorOpen)));
    FoundAt(ms, 3, Member("lockState", Text(s.lockState)));
  }

  lemma AccessRead(s: Api.Status, uptime: int)
    ensures ReadsAccess(Object(StateFields(s, uptime)), s.access)
  {
    var ms := StateFields(s, uptime);
    StateKeysDiffer(s, uptime);
    FoundAt(ms, 4, Member("lastAuthorizedMethod", Text(s.access.accessMethod)));
    FoundAt(ms, 5, Member("lastAuthorizedUser", Text(s.access.user)));
    FoundAt(ms, 6, Member("lastAuthorizationTime", Text(s.access.time)));
  }

  lemma GuardRead(s: Api.Status, uptime: int)
    ensures ReadsGuard(Object(StateFields(s, uptime)), s.guard)
  {
    var ms := StateFields(s, uptime);
    StateKeysDiffer(s, uptime);
    FoundAt(ms, 7, Member("pendingVerification", Bool(s.guard.pending)));
    FoundAt(ms, 8, Member("intrusionDetected", Bool(s.guard.intrusion)));
    FoundAt(ms, 9, Member("buzzerOn", Bool(s.guard.buzzerOn)));
    FoundAt(ms, 10, Member("ledStatus", Text(s.guard.led)));
  }

  lemma DevicesRead(s: Api.Status, uptime: int)
    ensures ReadsDevices(Object(StateFields(s, uptime)), s.devices, uptime)
  {
    var ms := StateFields(s, uptime);
    StateKeysDiffer(s, uptime);
    FoundAt(ms, 11, Member("cameraOnline", Bool(s.devices.camera)));
    FoundAt(ms, 12, Member("nfcOnline", Bool(s.devices.nfc)));
    FoundAt(ms, 13, Member("gpioOnline", Bool(s.devices.gpio)));
    FoundAt(ms, 14, Member("apiOnline", Bool(s.devices.api)));
    FoundAt(ms, 15, Member("uptimeSeconds", Int(uptime)));
  }

  lemma StateRead(s: Api.Status, uptime: int)
    ensures ReadsAsState(Object(StateFields(s, uptime)), s, uptime)
  {
    StateTree(s, uptime);
    SystemRead(s, uptime);
    AccessRead(s, uptime);
    GuardRead(s, uptime);
    DevicesRead(s, uptime);
  }

  lemma EntryRead(e: Api.LogEntry)
    ensures ReadsAsEntry(EntryTree(e), e)
  {
    var ms := EntryFields(e);
    FoundAt(ms, 0, Member("id", Text(e.id)));
    FoundAt(ms, 1, Member("time", Text(e.time)));
    FoundAt(ms, 2, Member("type", Text(e.kind)));
    FoundAt(ms, 3, Member("message", Text(e.message)));
    FoundAt(ms, 4, Member("extra", Text(e.extra)));
  }

  lemma LogsRead(logs: seq<Api.LogEntry>)
    ensures ReadsAsLogs(Object(LogsFields(logs)), logs)
  {
    var ms := LogsFields(logs);
    FoundAt(ms, 0, Member("ok", Bool(true)));
    FoundAt(ms, 1, Member("count", Int(|logs|)));
    FoundAt(ms, 2, Member("data", Array(EntryTrees(logs))));
    forall i | 0 <= i < |logs| ensures ReadsAsEntry(EntryTrees(logs)[i], logs[i]) {
      EntryRead(logs[i]);
    }
  }

  /** A reader of the state text finds every field of the state under its key, with unnamed control characters
      as spaces, and the uptime. */
  lemma StateJsonRecovered(s: Api.Status, uptime: int)
    ensures var p := ParseText(BuildStateJson(s, uptime));
            p.Some? && ReadsAsState(p.value, CleanStatus(s), uptime)
  {
    CleanedStatus(s, uptime);
    ObjectRecovered(StateFields(s, uptime), StateFields(CleanStatus(s), uptime));
    StateRead(CleanStatus(s), uptime);
  }

  lemma ObjectRecovered(ms: seq<Member>, cleaned: seq<Member>)
    requires PlainKeys(ms) && CleanMembers(ms) == cleaned
    ensures ParseText(ObjectJson(ms)) == Some(Object(cleaned))
  {
    ObjectPrinted(ms);
    TextRoundTrip(Object(ms));
  }

  lemma EntryPrinted(log: Api.LogEntry)
    ensures Print(EntryTree(log)) == ObjectJson(EntryFields(log))
  {
    EntryKeysPlain(log);
    ObjectPrinted(EntryFields(log));
  }

  lemma CleanedEntry(log: Api.LogEntry)
    ensures CleanMembers(EntryFields(log)) == EntryFields(CleanRecord(log))
  {
    EntryKeysPlain(log);
    CleanedFields(EntryFields(log), EntryFields(CleanRecord(log)));
  }

  lemma EntryCleaned(log: Api.LogEntry)
    ensures CleanValue(EntryTree(log)) == EntryTree(CleanRecord(log))
  {
    CleanedEntry(log);
  }

  lemma Appended(a: string, b: string, c: string)
    ensures a + ([','] + ((b + [',']) + c)) == ((a + ([','] + b)) + [',']) + c
  {
  }

  lemma {:induction false} ItemsSnoc(items: seq<Value>, v: Value)
    ensures PrintItems(items + [v]) == (if items == [] then [] else PrintItems(items) + [',']) + Print(v)
    decreases |items|
  {
    if items == [] {
      assert items + [v] == [v];
    } else {
      ItemsSnoc(items[1..], v);
      assert (items + [v])[1..] == items[1..] + [v];
      if |items| > 1 {
        Appended(Print(items[0]), PrintItems(items[1..]), Print(v));
      }
    }
  }

  lemma {:induction false} CleanItemsAt(items: seq<Value>, i: nat)
    ensures |CleanItems(items)| == |items|
    ensures i < |items| ==> CleanItems(items)[i] == CleanValue(items[i])
    decreases |items|
  {
    if items != [] {
      CleanItemsAt(items[1..], if i > 0 then i - 1 else 0);
    }
  }

  lemma CleanedEntries(logs: seq<Api.LogEntry>)
    ensures CleanItems(EntryTrees(logs)) == EntryTrees(CleanRecords(logs))
  {
    CleanItemsAt(EntryTrees(logs), 0);
    forall i | 0 <= i < |logs| ensures CleanItems(EntryTrees(logs))[i] == EntryTrees(CleanRecords(logs))[i] {
      CleanItemsAt(EntryTrees(logs), i);
      EntryCleaned(logs[i]);
    }
  }

  lemma LogsPrinted(logs: seq<Api.LogEntry>)
    ensures ObjectJson(LogsFields(logs)) == Print(Object(LogsFields(logs)))
    ensures CleanValue(Object(LogsFields(logs))) == Object(LogsFields(CleanRecords(logs)))
  {
    assert Plain("ok") && Plain("count") && Plain("data");
    FieldsPrinted(LogsFields(logs));
    CleanedEntries(logs);
    CleanedFields(LogsFields(logs), LogsFields(CleanRecords(logs)));
  }

  /** The text in front of the first entry. */
  function LogsHead(n: nat): string {
    ['{'] + (FieldJson(Member("ok", Bool(true))) + ([','] + (FieldJson(Member("count", Int(n)))
      + ([','] + (['\"'] + ("data" + ['\"', ':'])))))) + ['[']
  }

  lemma LogsAssembled(logs: seq<Api.LogEntry>)
    ensures LogsHead(|logs|) + PrintItems(EntryTrees(logs)) + [']'] + ['}'] == ObjectJson(LogsFields(logs))
  {
    var ms := LogsFields(logs);
    assert ms[1..][1..] == [ms[2]] && ms[1..][0] == ms[1];
    assert FieldsJson(ms[1..]) == FieldJson(ms[1]) + ([','] + FieldJson(ms[2]));
    assert FieldsJson(ms) == FieldJson(ms[0]) + ([','] + FieldsJson(ms[1..]));
  }

  /** The printing loop: entries separated by commas, appended to what has been written already. */
  method AppendEntries(head: string, logs: seq<Api.LogEntry>, limit: nat) returns (r: string)
    ensures var n := if limit < |logs| then limit else |logs|;
            r == head + PrintItems(EntryTrees(logs[..n]))
  {
    r := head;
    var i := 0;
    while i < |logs| && i < limit
      invariant 0 <= i <= |logs| && i <= limit
      invariant r == head + PrintItems(EntryTrees(logs[..i]))
    {
      OneMore(head, logs, i);
      if i > 0 {
        r := r + [','];
      }
      r := r + ObjectJson(EntryFields(logs[i]));
      i := i + 1;
    }
  }

  /** Whatever the log and the limit: a reader of the log text finds the first entries up to the limit,
      in order and field by field, and a count that is their number. */
  method BuildLogsJson(logs: seq<Api.LogEntry>, limit: nat) returns (r: string)
    ensures var n := if limit < |logs| then limit else |logs|;
            ParseText(r).Some? && ReadsAsLogs(ParseText(r).value, CleanRecords(logs[..n]))
  {
    var n := if limit < |logs| then limit else |logs|;
    r := AppendEntries(LogsHead(n), logs, limit);
    r := r + [']'] + ['}'];
    LogsAssembled(logs[..n]);
    LogsRecovered(logs[..n]);
  }

  lemma OneMore(head: string, logs: seq<Api.LogEntry>, i: nat)
    requires i < |logs|
    ensures head + PrintItems(EntryTrees(logs[..i + 1]))
         == head + PrintItems(EntryTrees(logs[..i])) + (if i > 0 then [','] else []) + ObjectJson(EntryFields(logs[i]))
  {
    var before := EntryTrees(logs[..i]);
    ItemsSnoc(before, EntryTree(logs[i]));
    EntryPrinted(logs[i]);
    assert EntryTrees(logs[..i + 1]) == before + [EntryTree(logs[i])];
    if i == 0 {
      assert before == [];
    }
    Assoc(head, PrintItems(before) + (if i > 0 then [','] else []), ObjectJson(EntryFields(logs[i])));
    Assoc(head, PrintItems(before), if i > 0 then [','] else []);
  }

  lemma LogsRecovered(logs: seq<Api.LogEntry>)
    ensures var p := ParseText(ObjectJson(LogsFields(logs)));
            p.Some? && ReadsAsLogs(p.value, CleanRecords(logs))
  {
    LogsRead(CleanRecords(logs));
    LogsPrinted(logs);
    TextRoundTrip(Object(LogsFields(logs)));
  }

  /** The log request: fifty entries unless the request says how many, and never more than two hundred.  A reader
      finds the newest entries of everything the server ever logged. */
  method GetLogs(server: Api.ApiServer, limit: Option<nat>) returns (r: string)
    requires server.LogValid()
    ensures var asked := if limit == None then 50 else if limit.value > 200 then 200 else limit.value;
            var n := if asked < |server.history| then asked else |server.history|;
            ParseText(r).Some? && ReadsAsLogs(ParseText(r).value, CleanRecords(server.history[..n]))
  {
    var most: nat := 50;
    if limit.Some? {
      most := limit.value;
      if most > 200 {
        most := 200;
      }
    }
    r := BuildLogsJson(server.logs, most);
    var n := if most < |server.logs| then most else |server.logs|;
    assert server.logs[..n] == server.history[..n];
  }

  ghost predicate Printable(s: string) {
    forall i :: 0 <= i < |s| ==> !Unnamed(s[i])
  }

  ghost predicate PrintableRecord(r: Api.LogEntry) {
    Printable(r.id) && Printable(r.time) && Printable(r.kind) && Printable(r.message) && Printable(r.extra)
  }

  lemma CleanRecordIff(r: Api.LogEntry)
    ensures CleanRecord(r) == r <==> PrintableRecord(r)
  {
    CleanIsIdentityIff(r.id);
    CleanIsIdentityIff(r.time);
    CleanIsIdentityIff(r.kind);
    CleanIsIdentityIff(r.message);
    CleanIsIdentityIff(r.extra);
  }

  /** The entries come back exactly as logged if and only if none holds an unnamed control character. */
  lemma LogsExactIff(logs: seq<Api.LogEntry>)
    ensures CleanRecords(logs) == logs <==> forall i :: 0 <= i < |logs| ==> PrintableRecord(logs[i])
  {
    forall i | 0 <= i < |logs| ensures CleanRecords(logs)[i] == logs[i] <==> PrintableRecord(logs[i]) {
      CleanRecordIff(logs[i]);
    }
  }
}

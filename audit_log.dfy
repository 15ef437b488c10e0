/** formatAuditLogs: one human-readable line per audit-log row. The action
    string the audit interceptor stores as `${method}_${path}` is split at its
    first '_' back into the method and the route. Date formatting
    (`toLocaleString`) and payload rendering (`JSON.stringify`) are library
    calls and are passed in as functions. */
module AuditLog {
  import opened Wrappers
  import opened Text

  datatype AuditLogEntry = AuditLogEntry(
    id: int,
    userId: Option<int>,
    action: string,
    resource: Option<string>,
    resourceId: Option<int>,
    payload: Option<map<string, string>>,
    createdAt: string)

  // ---------------------------------------------------------------- split and join

  /** `s.split(c)` for a one-character separator. */
  function Split(s: string, c: char): (parts: seq<string>)
    ensures |parts| >= 1
    ensures forall i :: 0 <= i < |parts| ==> c !in parts[i]
    ensures c !in s ==> parts == [s]
  {
    if s == [] then [""]
    else
      var rest := Split(s[1..], c);
      assert s == [s[0]] + s[1..];
      if s[0] == c then [""] + rest
      else [[s[0]] + rest[0]] + rest[1..]
  }

  /** `parts.join(c)`; the empty array joins to "". */
  function Join(parts: seq<string>, c: char): string
  {
    if parts == [] then ""
    else if |parts| == 1 then parts[0]
    else parts[0] + [c] + Join(parts[1..], c)
  }

  /** Joining the pieces of a split gives the string back. */
  lemma {:induction false} JoinSplit(s: string, c: char)
    ensures Join(Split(s, c), c) == s
  {
    if s != [] {
      var rest := Split(s[1..], c);
      JoinSplit(s[1..], c);
      if s[0] == c {
        assert ([""] + rest)[1..] == rest;
      } else {
        var parts := [[s[0]] + rest[0]] + rest[1..];
        if |rest| == 1 {
          assert parts == [[s[0]] + rest[0]];
        } else {
          assert parts[1..] == rest[1..];
          assert Join(rest, c) == rest[0] + [c] + Join(rest[1..], c);
        }
      }
    }
  }

  /** A prefix without the separator becomes the first piece. */
  lemma {:induction false} SplitAfterPrefix(m: string, c: char, p: string)
    requires c !in m
    ensures Split(m + [c] + p, c) == [m] + Split(p, c)
  {
    if m == [] {
      assert m + [c] + p == [c] + p;
      assert ([c] + p)[1..] == p;
    } else {
      assert (m + [c] + p)[1..] == m[1..] + [c] + p;
      assert (m + [c] + p)[0] == m[0];
      SplitAfterPrefix(m[1..], c, p);
      assert [m[0]] + m[1..] == m;
    }
  }

  // ---------------------------------------------------------------- action

  datatype ParsedAction = ParsedAction(httpMethod: string, route: string)

  /** `actionParts[0]` and `actionParts.slice(1).join('_')`. */
  function ParseAction(action: string): (r: ParsedAction)
  {
    var parts := Split(action, '_');
    ParsedAction(parts[0], Join(parts[1..], '_'))
  }

  /** The method is the text before the first '_' and the route everything
      after it; with no '_', the route is empty. */
  lemma ParseActionSplitsAtFirstUnderscore(action: string)
    ensures '_' !in ParseAction(action).httpMethod
    ensures '_' !in action ==> ParseAction(action) == ParsedAction(action, "")
    ensures '_' in action ==> action == ParseAction(action).httpMethod + "_" + ParseAction(action).route
  {
    var parts := Split(action, '_');
    JoinSplit(action, '_');
    if '_' in action {
      assert |parts| > 1;
      assert Join(parts, '_') == parts[0] + "_" + Join(parts[1..], '_');
    }
  }

  /** An action built as `${method}_${path}` with a method free of '_'
      parses back to that method and path. */
  lemma ActionRoundTrip(httpMethod: string, path: string)
    requires '_' !in httpMethod
    ensures ParseAction(httpMethod + "_" + path) == ParsedAction(httpMethod, path)
  {
    SplitAfterPrefix(httpMethod, '_', path);
    assert httpMethod + "_" + path == httpMethod + ['_'] + path;
    JoinSplit(path, '_');
    assert ([httpMethod] + Split(path, '_'))[1..] == Split(path, '_');
  }

  // ---------------------------------------------------------------- line pieces

  /** A truthy optional string or number. */
  predicate GivenText(s: Option<string>) { s.Some? && s.value != [] }
  predicate GivenNumber(n: Option<int>) { n.Some? && n.value != 0 }

  /** `what`. */
  function What(a: ParsedAction, resource: Option<string>, resourceId: Option<int>): (w: string)
    ensures GivenText(resource) && GivenNumber(resourceId) ==>
              w == a.httpMethod + " " + resource.value + " #" + IntToString(resourceId.value)
    ensures GivenText(resource) && !GivenNumber(resourceId) ==> w == a.httpMethod + " " + resource.value
    ensures !GivenText(resource) ==> w == a.httpMethod + " " + a.route
  {
    if GivenText(resource) then
      a.httpMethod + " " + resource.value + (if GivenNumber(resourceId) then " #" + IntToString(resourceId.value) else "")
    else a.httpMethod + " " + a.route
  }

  const DetailsPrefix := "\n  📦 Dữ liệu: "

  /** `details`: empty unless the payload is present with at least one key. */
  function Details(payload: Option<map<string, string>>, stringify: map<string, string> -> string): (d: string)
    ensures d == [] <==> payload.None? || |payload.value| == 0
    ensures d != [] ==> d == DetailsPrefix + stringify(payload.value)
  {
    if payload.Some? && |payload.value| > 0 then DetailsPrefix + stringify(payload.value) else ""
  }

  /** `ID người dùng: ${log.userId}`; a null id renders as "null". */
  function Who(userId: Option<int>): string {
    "ID người dùng: " + (if userId.Some? then IntToString(userId.value) else "null")
  }

  /** One output line. */
  function FormatLog(log: AuditLogEntry, formatTime: string -> string, stringify: map<string, string> -> string): (line: string)
    ensures StartsWith(line, "[" + formatTime(log.createdAt) + "] ")
  {
    var head := "[" + formatTime(log.createdAt) + "] ";
    var tail := "👤 " + Who(log.userId) + " ➜ " + What(ParseAction(log.action), log.resource, log.resourceId)
                + Details(log.payload, stringify);
    assert (head + tail)[..|head|] == head;
    head + tail
  }

  /** formatAuditLogs: one line per log, in the same order. */
  function FormatAuditLogs(logs: seq<AuditLogEntry>, formatTime: string -> string, stringify: map<string, string> -> string)
    : (lines: seq<string>)
    ensures |lines| == |logs|
    ensures forall i :: 0 <= i < |logs| ==> lines[i] == FormatLog(logs[i], formatTime, stringify)
  {
    seq(|logs|, i requires 0 <= i < |logs| => FormatLog(logs[i], formatTime, stringify))
  }
}

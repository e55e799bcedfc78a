/** The two entry points of the tool-output compressor: the form sent with a fresh tool
    result and the form rebuilt from a stored one. JSON text is read and written by the
    surrounding library, so every statement holds for any reader and any writer. */
module ToolOutput {
  import opened Text
  import Stream = CompactStream
  import opened Wrappers

  const RECOVERY_HEADER_PREFIX := "[XCoding compressed tool output;"
  const I64_MIN: int := -0x8000_0000_0000_0000
  const I64_MAX: int := 0x7FFF_FFFF_FFFF_FFFF
  const U64_MAX: int := 0xFFFF_FFFF_FFFF_FFFF

  datatype Json =
    | Null
    | Bool(b: bool)
    | Integer(n: int)
    | Float
    | Str(s: string)
    | Array(items: seq<Json>)
    | Object(fields: map<string, Json>)

  datatype Options = Options(enabled: bool, minChars: nat, minSavingsPercent: nat)

  datatype Outcome = Outcome(content: string, compressed: bool, strategy: Option<string>)

  /** How JSON text is read and written. */
  datatype Codec = Codec(read: string -> Option<Json>, write: Json -> Option<string>)

  function Unchanged(content: string): (r: Outcome) {
    Outcome(content, false, None)
  }

  predicate IsSpace(c: char) {
    || '\t' <= c <= '\r' || c == ' ' || c == '\U{85}' || c == '\U{A0}' || c == '\U{1680}'
    || '\U{2000}' <= c <= '\U{200A}' || c == '\U{2028}' || c == '\U{2029}' || c == '\U{202F}'
    || c == '\U{205F}' || c == '\U{3000}'
  }

  // ---------- JSON access ----------

  function Get(fields: map<string, Json>, key: string): (r: Option<Json>) {
    if key in fields then Some(fields[key]) else None
  }

  predicate IsBool(v: Option<Json>, b: bool) {
    v == Some(Bool(b))
  }

  predicate IsU64(v: Option<Json>) {
    v.Some? && v.value.Integer? && 0 <= v.value.n <= U64_MAX
  }

  predicate IsI64(v: Option<Json>, n: int) {
    I64_MIN <= n <= I64_MAX && v == Some(Integer(n))
  }

  // ---------- command output ----------

  /** The guard a command result must pass: it succeeded, exited with 0 and did not time out. */
  predicate RunSucceeded(fields: map<string, Json>) {
    && IsBool(Get(fields, "success"), true)
    && IsI64(Get(fields, "exit_code"), 0)
    && IsBool(Get(fields, "timed_out"), false)
  }

  function CompactField(fields: map<string, Json>, key: string): (r: Option<Json>) {
    match Get(fields, key)
    case Some(Str(text)) => Some(Str(Stream.Compact(text)))
    case other => other
  }

  /** `out` is `fields` with both streams compacted and every other field as it was. */
  ghost predicate StreamsCompacted(fields: map<string, Json>, out: map<string, Json>) {
    && out.Keys == fields.Keys
    && Get(out, "stdout") == CompactField(fields, "stdout")
    && Get(out, "stderr") == CompactField(fields, "stderr")
    && forall k :: k in fields && k != "stdout" && k != "stderr" ==> out[k] == fields[k]
  }

  function WithStream(fields: map<string, Json>, key: string): (r: map<string, Json>) {
    var next := CompactField(fields, key);
    if next.Some? then fields[key := next.value] else fields
  }

  function CompactRunCommand(value: Json): (r: Option<Json>) {
    if !value.Object? || !RunSucceeded(value.fields) then None
    else
      var compacted := WithStream(WithStream(value.fields, "stdout"), "stderr");
      if compacted == value.fields then None else Some(Object(compacted))
  }

  /** Only successful command results are compacted, and only their two streams change. */
  lemma RunCommandKeepsFields(value: Json)
    requires CompactRunCommand(value).Some?
    ensures value.Object? && RunSucceeded(value.fields)
    ensures CompactRunCommand(value).value.Object?
    ensures StreamsCompacted(value.fields, CompactRunCommand(value).value.fields)
    ensures CompactRunCommand(value).value != value
  {
    var once := WithStream(value.fields, "stdout");
    assert Get(once, "stderr") == Get(value.fields, "stderr");
  }

  /** One round of the stream loop. */
  method CompactOneStream(compacted: map<string, Json>, key: string) returns (out: map<string, Json>, changed: bool)
    ensures out == WithStream(compacted, key)
    ensures changed <==> out != compacted
    ensures forall k :: k != key ==> Get(out, k) == Get(compacted, k)
  {
    out, changed := compacted, false;
    if key in compacted && compacted[key].Str? {
      var text := compacted[key].s;
      var next := Stream.CompactText(text);
      if next != text {
        changed := true;
        out := compacted[key := Str(next)];
        assert out[key] != compacted[key];
      }
    }
  }

  /** The loop over the two stream names. */
  method CompactRunCommandLoop(value: Json) returns (out: Option<Json>)
    ensures out == CompactRunCommand(value)
  {
    if !value.Object? || !RunSucceeded(value.fields) {
      return None;
    }
    var compacted, stdoutChanged := CompactOneStream(value.fields, "stdout");
    ghost var middle := compacted;
    var stderrChanged;
    compacted, stderrChanged := CompactOneStream(compacted, "stderr");
    assert Get(compacted, "stdout") == Get(middle, "stdout");
    out := if stdoutChanged || stderrChanged then Some(Object(compacted)) else None;
  }

  // ---------- search output ----------

  const STAT_KEYS := ["directories_scanned", "files_scanned", "bytes_scanned", "elapsed_ms"]

  predicate SearchShape(fields: map<string, Json>) {
    && ("success" in fields ==> fields["success"] == Bool(true))
    && ("timed_out" in fields ==> fields["timed_out"] == Bool(false))
    && "results" in fields && fields["results"].Array?
    && "truncated" in fields && fields["truncated"].Bool?
    && "stats" in fields && fields["stats"].Object?
    && (forall i :: 0 <= i < |STAT_KEYS| ==> IsU64(Get(fields["stats"].fields, STAT_KEYS[i])))
  }

  predicate ResultShape(result: Json) {
    && result.Object?
    && "path" in result.fields && result.fields["path"].Str?
    && IsU64(Get(result.fields, "line"))
    && "text" in result.fields && result.fields["text"].Str?
    && ("before" in result.fields ==> result.fields["before"].Array?)
    && ("after" in result.fields ==> result.fields["after"].Array?)
  }

  function CompactResult(result: Json): (r: Json)
    requires ResultShape(result)
    ensures ResultShape(r) && r.fields.Keys == {"path", "line", "text"}
    ensures forall k :: k in r.fields ==> r.fields[k] == result.fields[k]
  {
    Object(map k | k in {"path", "line", "text"} :: result.fields[k])
  }

  function CompactResults(results: seq<Json>): (r: Option<seq<Json>>)
    ensures r.Some? <==> forall i :: 0 <= i < |results| ==> ResultShape(results[i])
    ensures r.Some? ==> |r.value| == |results|
    ensures r.Some? ==> forall i :: 0 <= i < |results| ==> r.value[i] == CompactResult(results[i])
  {
    if results == [] then Some([])
    else if !ResultShape(results[0]) then None
    else
      var rest := CompactResults(results[1..]);
      assert forall i :: 1 <= i < |results| ==> results[i] == results[1..][i - 1];
      if rest.None? then None else Some([CompactResult(results[0])] + rest.value)
  }

  function CompactSearchCode(value: Json): (r: Option<Json>) {
    if !value.Object? || !SearchShape(value.fields) then None
    else
      var results := CompactResults(value.fields["results"].items);
      if results.None? then None
      else Some(Object(value.fields["results" := Array(results.value)]))
  }

  /** The validating loop over the search results. */
  method CompactSearchCodeLoop(value: Json) returns (out: Option<Json>)
    ensures out == CompactSearchCode(value)
  {
    if !value.Object? || !SearchShape(value.fields) {
      return None;
    }
    var results := value.fields["results"].items;
    var compacted: seq<Json> := [];
    for i := 0 to |results|
      invariant |compacted| == i
      invariant forall j :: 0 <= j < i ==> ResultShape(results[j]) && compacted[j] == CompactResult(results[j])
    {
      if !ResultShape(results[i]) {
        assert CompactResults(results).None?;
        return None;
      }
      compacted := compacted + [CompactResult(results[i])];
    }
    assert CompactResults(results).value == compacted;
    out := Some(Object(value.fields["results" := Array(compacted)]));
  }

  /** Compacting search output a second time changes nothing. */
  lemma SearchIdempotent(value: Json)
    requires CompactSearchCode(value).Some?
    ensures CompactSearchCode(CompactSearchCode(value).value) == CompactSearchCode(value)
  {
    var once := CompactSearchCode(value).value;
    var results := once.fields["results"].items;
    forall i | 0 <= i < |results|
      ensures ResultShape(results[i]) && CompactResult(results[i]) == results[i]
    {
      assert results[i] == CompactResult(value.fields["results"].items[i]);
      ResultFixed(value.fields["results"].items[i]);
    }
    assert CompactResults(results).value == results;
    assert once.fields["results" := Array(results)] == once.fields;
  }

  lemma ResultFixed(result: Json)
    requires ResultShape(result)
    ensures CompactResult(CompactResult(result)) == CompactResult(result)
  {
    assert CompactResult(CompactResult(result)).fields == CompactResult(result).fields;
  }

  // ---------- the savings test ----------

  function Header(messageId: string, strategy: string, originalChars: nat): (r: string)
    ensures StartsWith(r, RECOVERY_HEADER_PREFIX)
  {
    RECOVERY_HEADER_PREFIX + " message_id=" + messageId + "; strategy=" + strategy
    + "; original_chars=" + Stream.Decimal(originalChars)
    + "; use history_read with message_id=" + messageId + " to recover.]"
  }

  function Finish(original: string, compacted: string, strategy: string, messageId: string,
                  options: Options): (r: Outcome)
  {
    var content := Header(messageId, strategy, |original|) + "\n" + compacted;
    var required := if options.minSavingsPercent < 100 then options.minSavingsPercent else 100;
    if |compacted| >= |original| then Unchanged(original)
    else if |content| >= |original| then Unchanged(original)
    else if (|original| - |content|) * 100 < |original| * required then Unchanged(original)
    else Outcome(content, true, Some(strategy))
  }

  /** The guards both entry points share. */
  predicate Admits(content: string, messageId: string, options: Options) {
    && options.enabled
    && Trim(messageId, IsSpace) != ""
    && !StartsWith(TrimStart(content, IsSpace), RECOVERY_HEADER_PREFIX)
    && |content| >= options.minChars
  }

  function Compaction(toolName: string, value: Json): (r: Option<Json>) {
    if toolName == "run_command" then CompactRunCommand(value)
    else if toolName == "search_code" then CompactSearchCode(value)
    else None
  }

  function CompressToolOutput(codec: Codec, toolName: string, content: string, messageId: string,
                              options: Options): (r: Outcome)
  {
    if !Admits(content, messageId, options) then Unchanged(content)
    else
      match codec.read(content)
      case None => Unchanged(content)
      case Some(value) => FinishWith(codec, Compaction(toolName, value), toolName, content, messageId, options)
  }

  function FinishWith(codec: Codec, compacted: Option<Json>, strategy: string, content: string, messageId: string,
                      options: Options): (r: Outcome)
  {
    if compacted.None? then Unchanged(content)
    else
      match codec.write(compacted.value)
      case None => Unchanged(content)
      case Some(text) => Finish(content, text, strategy, messageId, options)
  }

  function CompressStored(codec: Codec, content: string, messageId: string, options: Options): (r: Outcome) {
    if !Admits(content, messageId, options) then Unchanged(content)
    else
      match codec.read(content)
      case None => Unchanged(content)
      case Some(value) =>
        var run := CompactRunCommand(value);
        if run.Some? then FinishWith(codec, run, "run_command", content, messageId, options)
        else FinishWith(codec, CompactSearchCode(value), "search_code", content, messageId, options)
  }

  // ---------- what both entry points promise ----------

  /** Untouched, or strictly shorter by at least the required percentage and recognisable
      by its header. */
  ghost predicate Sound(original: string, out: Outcome, options: Options) {
    out == Unchanged(original) ||
    (&& out.compressed
     && |out.content| < |original|
     && options.minSavingsPercent < 100
     && (|original| - |out.content|) * 100 >= |original| * options.minSavingsPercent
     && StartsWith(out.content, RECOVERY_HEADER_PREFIX))
  }

  lemma FinishSound(original: string, compacted: string, strategy: string, messageId: string, options: Options)
    ensures Sound(original, Finish(original, compacted, strategy, messageId, options), options)
  {
    var header := Header(messageId, strategy, |original|);
    var content := header + "\n" + compacted;
    var p := RECOVERY_HEADER_PREFIX;
    assert content[..|p|] == header[..|p|];
  }

  lemma FinishWithSound(codec: Codec, compacted: Option<Json>, strategy: string, content: string, messageId: string,
                        options: Options)
    ensures Sound(content, FinishWith(codec, compacted, strategy, content, messageId, options), options)
  {
    if compacted.Some? && codec.write(compacted.value).Some? {
      FinishSound(content, codec.write(compacted.value).value, strategy, messageId, options);
    }
  }

  /** Both entry points return the text untouched or a shorter one that saves enough; a
      required saving of 100 per cent or more therefore never compresses. */
  lemma CompressionSound(codec: Codec, toolName: string, content: string, messageId: string, options: Options)
    ensures Sound(content, CompressToolOutput(codec, toolName, content, messageId, options), options)
    ensures Sound(content, CompressStored(codec, content, messageId, options), options)
  {
    match codec.read(content)
    case None =>
    case Some(value) =>
      FinishWithSound(codec, Compaction(toolName, value), toolName, content, messageId, options);
      FinishWithSound(codec, CompactRunCommand(value), "run_command", content, messageId, options);
      FinishWithSound(codec, CompactSearchCode(value), "search_code", content, messageId, options);
  }

  /** A compressed result passes through either entry point untouched, whatever tool, id and
      options come with it. */
  lemma CompressedIsFixed(first: Codec, tool: string, content: string, id: string, options: Options,
                          second: Codec, otherTool: string, otherId: string, otherOptions: Options, stored: bool)
    requires stored ==> CompressStored(first, content, id, options).compressed
    requires !stored ==> CompressToolOutput(first, tool, content, id, options).compressed
    ensures var once := if stored then CompressStored(first, content, id, options)
                        else CompressToolOutput(first, tool, content, id, options);
            && CompressToolOutput(second, otherTool, once.content, otherId, otherOptions) == Unchanged(once.content)
            && CompressStored(second, once.content, otherId, otherOptions) == Unchanged(once.content)
  {
    CompressionSound(first, tool, content, id, options);
    var once := if stored then CompressStored(first, content, id, options)
                else CompressToolOutput(first, tool, content, id, options);
    assert once.content[0] == once.content[..|RECOVERY_HEADER_PREFIX|][0] == '[';
    assert !IsSpace('[');
    assert TrimStart(once.content, IsSpace) == once.content;
  }

  /** An object whose `success` is false or whose `timed_out` is true is never compressed. */
  lemma FailuresPassThrough(codec: Codec, toolName: string, content: string, messageId: string, options: Options,
                            value: Json)
    requires codec.read(content) == Some(value) && value.Object?
    requires Get(value.fields, "success") == Some(Bool(false)) || Get(value.fields, "timed_out") == Some(Bool(true))
    ensures CompressToolOutput(codec, toolName, content, messageId, options) == Unchanged(content)
    ensures CompressStored(codec, content, messageId, options) == Unchanged(content)
  {
    assert CompactRunCommand(value).None? && CompactSearchCode(value).None?;
  }

  // ---------- stored against live ----------

  /** The two strategies leave different headers. */
  lemma HeadersDiffer(original: string, a: string, b: string, messageId: string, options: Options)
    requires Finish(original, a, "run_command", messageId, options).compressed
    requires Finish(original, b, "search_code", messageId, options).compressed
    ensures Finish(original, a, "run_command", messageId, options).content
            != Finish(original, b, "search_code", messageId, options).content
  {
    var common := RECOVERY_HEADER_PREFIX + " message_id=" + messageId + "; strategy=";
    var x := Finish(original, a, "run_command", messageId, options).content;
    var y := Finish(original, b, "search_code", messageId, options).content;
    assert x[|common|] == 'r' && y[|common|] == 's';
  }

  /** The characters of the header, its line feed included. */
  function HeaderChars(idChars: nat, strategyChars: nat, digits: nat): (r: nat) {
    |RECOVERY_HEADER_PREFIX| + |" message_id="| + |"; strategy="| + |"; original_chars="|
    + |"; use history_read with message_id="| + |" to recover.]"| + 1
    + 2 * idChars + strategyChars + digits
  }

  /** The saving is large enough, counted in characters. */
  predicate Pays(original: string, compacted: string, strategy: string, messageId: string, options: Options) {
    var total := HeaderChars(|messageId|, |strategy|, |Stream.Decimal(|original|)|) + |compacted|;
    var required := if options.minSavingsPercent < 100 then options.minSavingsPercent else 100;
    total < |original| && (|original| - total) * 100 >= |original| * required
  }

  lemma FinishExactly(original: string, compacted: string, strategy: string, messageId: string, options: Options)
    ensures var out := Finish(original, compacted, strategy, messageId, options);
            && (out.compressed <==> Pays(original, compacted, strategy, messageId, options))
            && (!out.compressed ==> out == Unchanged(original))
    ensures var sent := |Header(messageId, strategy, |original|)| + 1 + |compacted|;
            var required := if options.minSavingsPercent >= 100 then 100 else options.minSavingsPercent;
            Finish(original, compacted, strategy, messageId, options).compressed
            <==> sent < |original| && |original| * required <= 100 * (|original| - sent)
  {
    var header := Header(messageId, strategy, |original|);
    assert |header| + 1 == HeaderChars(|messageId|, |strategy|, |Stream.Decimal(|original|)|);
  }

  /** The compaction applies, can be written, and pays off. */
  predicate PaysOff(codec: Codec, compacted: Option<Json>, strategy: string, content: string, messageId: string,
                    options: Options)
  {
    && compacted.Some? && codec.write(compacted.value).Some?
    && Pays(content, codec.write(compacted.value).value, strategy, messageId, options)
  }

  lemma FinishWithExactly(codec: Codec, compacted: Option<Json>, strategy: string, content: string,
                          messageId: string, options: Options)
    ensures var out := FinishWith(codec, compacted, strategy, content, messageId, options);
            && (out.compressed <==> PaysOff(codec, compacted, strategy, content, messageId, options))
            && (!out.compressed ==> out == Unchanged(content))
  {
    if compacted.Some? && codec.write(compacted.value).Some? {
      FinishExactly(content, codec.write(compacted.value).value, strategy, messageId, options);
    }
  }

  /** What the two compactions of a value would send, each on its own. */
  lemma TwoOutcomes(codec: Codec, run: Option<Json>, search: Option<Json>, content: string, messageId: string,
                    options: Options)
    ensures var a := FinishWith(codec, run, "run_command", content, messageId, options);
            var b := FinishWith(codec, search, "search_code", content, messageId, options);
            && (a == Unchanged(content) <==> !PaysOff(codec, run, "run_command", content, messageId, options))
            && (b == Unchanged(content) <==> !PaysOff(codec, search, "search_code", content, messageId, options))
            && (a == b ==> a == Unchanged(content))
  {
    FinishWithExactly(codec, run, "run_command", content, messageId, options);
    FinishWithExactly(codec, search, "search_code", content, messageId, options);
    var a := FinishWith(codec, run, "run_command", content, messageId, options);
    var b := FinishWith(codec, search, "search_code", content, messageId, options);
    if a.compressed && b.compressed {
      HeadersDiffer(content, codec.write(run.value).value, codec.write(search.value).value, messageId, options);
    }
  }

  /** When a rebuilt result is the sent one, by the tool's name, whether the command compaction
      applies, and which compactions pay off. */
  predicate RebuiltAsSent(toolName: string, runApplies: bool, runPays: bool, searchPays: bool) {
    if toolName == "run_command" then runApplies || !searchPays
    else if toolName == "search_code" then !runApplies || (!runPays && !searchPays)
    else if runApplies then !runPays else !searchPays
  }

  /** The live choice goes by the tool's name, the stored one by the value's shape. */
  lemma Choices(toolName: string, runApplies: bool, run: Outcome, search: Outcome, same: Outcome)
    requires !runApplies ==> run == same
    requires run == search ==> run == same
    ensures var live := if toolName == "run_command" then run else if toolName == "search_code" then search else same;
            var stored := if runApplies then run else search;
            stored == live <==> RebuiltAsSent(toolName, runApplies, run != same, search != same)
  {}

  lemma EntryPoints(codec: Codec, toolName: string, content: string, messageId: string, options: Options, value: Json)
    requires codec.read(content) == Some(value) && Admits(content, messageId, options)
    ensures var run := FinishWith(codec, CompactRunCommand(value), "run_command", content, messageId, options);
            var search := FinishWith(codec, CompactSearchCode(value), "search_code", content, messageId, options);
            && CompressStored(codec, content, messageId, options)
               == (if CompactRunCommand(value).Some? then run else search)
            && CompressToolOutput(codec, toolName, content, messageId, options)
               == (if toolName == "run_command" then run
                   else if toolName == "search_code" then search
                   else Unchanged(content))
            && (CompactRunCommand(value).None? ==> run == Unchanged(content))
  {}

  /** For every tool: a stored result is rebuilt as it was sent if and only if the guards or the
      reader turn it away, or the tool's own strategy is the one its shape suggests, or neither
      of the strategies that differ pays off. */
  lemma StoredIsLive(codec: Codec, toolName: string, content: string, messageId: string, options: Options)
    ensures CompressStored(codec, content, messageId, options)
              == CompressToolOutput(codec, toolName, content, messageId, options)
       <==> (|| !Admits(content, messageId, options)
             || codec.read(content).None?
             || var value := codec.read(content).value;
                var run, search := CompactRunCommand(value), CompactSearchCode(value);
                RebuiltAsSent(toolName, run.Some?,
                              PaysOff(codec, run, "run_command", content, messageId, options),
                              PaysOff(codec, search, "search_code", content, messageId, options)))
  {
    if Admits(content, messageId, options) && codec.read(content).Some? {
      var value := codec.read(content).value;
      var run, search := CompactRunCommand(value), CompactSearchCode(value);
      EntryPoints(codec, toolName, content, messageId, options, value);
      TwoOutcomes(codec, run, search, content, messageId, options);
      Choices(toolName, run.Some?, FinishWith(codec, run, "run_command", content, messageId, options),
              FinishWith(codec, search, "search_code", content, messageId, options), Unchanged(content));
    }
  }

  lemma NoResultsNoSearch(value: Json)
    requires value.Object? ==> "results" !in value.fields
    ensures CompactSearchCode(value).None?
  {}

  lemma NoExitCodeNoRun(value: Json)
    requires value.Object? ==> "exit_code" !in value.fields
    ensures CompactRunCommand(value).None?
  {}

  /** Results without a `results` field, as the command tool writes them, are always rebuilt as
      they were sent. */
  lemma CommandRebuilt(codec: Codec, content: string, messageId: string, options: Options, value: Json)
    requires codec.read(content) == Some(value)
    requires value.Object? ==> "results" !in value.fields
    ensures CompressStored(codec, content, messageId, options)
         == CompressToolOutput(codec, "run_command", content, messageId, options)
  {
    NoResultsNoSearch(value);
    StoredIsLive(codec, "run_command", content, messageId, options);
  }

  /** So are results without an `exit_code` field, as the search tool writes them. */
  lemma SearchRebuilt(codec: Codec, content: string, messageId: string, options: Options, value: Json)
    requires codec.read(content) == Some(value)
    requires value.Object? ==> "exit_code" !in value.fields
    ensures CompressStored(codec, content, messageId, options)
         == CompressToolOutput(codec, "search_code", content, messageId, options)
  {
    NoExitCodeNoRun(value);
    StoredIsLive(codec, "search_code", content, messageId, options);
  }

  /** Results with neither field, as every other tool writes them, pass both entry points
      untouched, under whatever tool name. */
  lemma NeitherShapeUnchanged(codec: Codec, toolName: string, content: string, messageId: string, options: Options,
                              value: Json)
    requires codec.read(content) == Some(value)
    requires value.Object? ==> "results" !in value.fields && "exit_code" !in value.fields
    ensures CompressToolOutput(codec, toolName, content, messageId, options) == Unchanged(content)
    ensures CompressStored(codec, content, messageId, options) == Unchanged(content)
  {
    NoResultsNoSearch(value);
    NoExitCodeNoRun(value);
  }

  const NO_STATS := Object(map["directories_scanned" := Integer(0), "files_scanned" := Integer(0),
                               "bytes_scanned" := Integer(0), "elapsed_ms" := Integer(0)])

  /** A result in the search tool's shape. */
  const NOTHING_FOUND := Object(map["results" := Array([]), "truncated" := Bool(false), "stats" := NO_STATS])

  lemma NothingFoundIsSearch()
    ensures CompactRunCommand(NOTHING_FOUND).None?
    ensures CompactSearchCode(NOTHING_FOUND) == Some(NOTHING_FOUND)
  {
    var fields := NOTHING_FOUND.fields;
    assert fields["stats"].fields == NO_STATS.fields;
    assert SearchShape(fields);
    assert fields["results" := Array([])] == fields;
  }

  lemma PaddedPays(content: string, text: string)
    requires |content| == 5000 && |text| <= 500
    ensures Pays(content, text, "search_code", "m", Options(true, 4000, 20))
  {
    assert |Stream.Decimal(5)| == 1 && |Stream.Decimal(50)| == 2;
    assert |Stream.Decimal(500)| == 3 && |Stream.Decimal(5000)| == 4;
  }

  lemma NoHeaderThere(content: string)
    requires content != "" && content[0] == '{'
    ensures TrimStart(content, IsSpace) == content && !StartsWith(content, RECOVERY_HEADER_PREFIX)
  {
    assert !IsSpace('{');
    assert |content| >= |RECOVERY_HEADER_PREFIX| ==> content[..|RECOVERY_HEADER_PREFIX|][0] == content[0];
  }

  lemma IdNotBlank()
    ensures Trim("m", IsSpace) == "m"
  {
    assert !IsSpace('m');
    TrimmedIsFixed("m", IsSpace);
  }

  lemma PaddedAdmitted(content: string)
    requires |content| == 5000 && content[0] == '{'
    ensures Admits(content, "m", Options(true, 4000, 20))
  {
    NoHeaderThere(content);
    IdNotBlank();
  }

  /** Arguments on which the two entry points differ: the search tool's shape under a third tool's
      name, the text padded with white space. No tool of the program writes such a result. */
  lemma OtherToolRewritten(codec: Codec, text: string, content: string)
    requires text != "" && text[0] == '{' && |text| <= 500 && codec.write(NOTHING_FOUND) == Some(text)
    requires content == text + seq(5000 - |text|, _ => ' ') && codec.read(content) == Some(NOTHING_FOUND)
    ensures CompressToolOutput(codec, "mcp", content, "m", Options(true, 4000, 20)) == Unchanged(content)
    ensures CompressStored(codec, content, "m", Options(true, 4000, 20)).compressed
  {
    PaddedPays(content, text);
    PaddedAdmitted(content);
    NothingFoundIsSearch();
    EntryPoints(codec, "mcp", content, "m", Options(true, 4000, 20), NOTHING_FOUND);
    FinishWithExactly(codec, Some(NOTHING_FOUND), "search_code", content, "m", Options(true, 4000, 20));
  }
}

/** What a compressed tool output carries: one header line that names the stored message, the
    strategy and the original length, and below it the compact form of the value. And exactly
    when an output is compressed. */
module CompressionLaws {
  import opened Text
  import opened Wrappers
  import opened ToolOutput
  import opened StreamReading
  import Stream = CompactStream

  // ---------- reading a header ----------

  datatype Recovery = Recovery(messageId: string, strategy: string, originalChars: nat)

  /** The text up to the first semicolon, and from there on. */
  function UpToSemicolon(s: string): (r: (string, string)) {
    var i := IndexOf(s, ";");
    if i < 0 then (s, "") else (s[..i], s[i..])
  }

  function After(s: string, p: string): (r: Option<string>) {
    if StartsWith(s, p) then Some(s[|p|..]) else None
  }

  /** A field after its name, and what follows it. */
  function Field(s: string, name: string): (r: Option<(string, string)>) {
    match After(s, name)
    case None => None
    case Some(rest) => Some(UpToSemicolon(rest))
  }

  function ReadHeader(line: string): (r: Option<Recovery>) {
    match Field(line, "[XCoding compressed tool output; message_id=")
    case None => None
    case Some((id, rest)) =>
      match Field(rest, "; strategy=")
      case None => None
      case Some((strategy, more)) =>
        match Field(more, "; original_chars=")
        case None => None
        case Some((chars, end)) =>
          if Digits(chars) && end == "; use history_read with message_id=" + id + " to recover.]"
          then Some(Recovery(id, strategy, ParseDecimal(chars))) else None
  }

  lemma FieldBack(name: string, value: string, rest: string)
    requires ';' !in value && rest != "" && rest[0] == ';'
    ensures Field(name + (value + rest), name) == Some((value, rest))
  {
    var s := name + (value + rest);
    assert s[..|name|] == name && s[|name|..] == value + rest;
    SemicolonAt(value, rest);
  }

  lemma SemicolonAt(value: string, rest: string)
    requires ';' !in value && rest != "" && rest[0] == ';'
    ensures UpToSemicolon(value + rest) == (value, rest)
  {
    var s := value + rest;
    assert s[|value|..|value| + 1] == ";";
    forall k | 0 <= k < |value| ensures !OccursAt(s, ";", k) {
      assert s[k..k + 1][0] == value[k];
    }
    IndexFromIs(s, ";", 0, |value|);
    assert s[..|value|] == value && s[|value|..] == rest;
  }

  /** The parts of a header, nested as they are read. */
  lemma HeaderNested(id: string, strategy: string, n: nat)
    ensures var end := "; use history_read with message_id=" + id + " to recover.]";
            var chars := "; original_chars=" + (Stream.Decimal(n) + end);
            Header(id, strategy, n)
            == "[XCoding compressed tool output; message_id=" + (id + ("; strategy=" + (strategy + chars)))
  {
    var end := "; use history_read with message_id=" + id + " to recover.]";
    var head := "[XCoding compressed tool output; message_id=";
    PrefixJoined();
    Flatten(head, id, "; strategy=", strategy, "; original_chars=", Stream.Decimal(n), end);
    EndJoined(RECOVERY_HEADER_PREFIX + " message_id=" + id + "; strategy=" + strategy
              + "; original_chars=" + Stream.Decimal(n), id);
  }

  lemma PrefixJoined()
    ensures RECOVERY_HEADER_PREFIX + " message_id=" == "[XCoding compressed tool output; message_id="
  {}

  lemma EndJoined(before: string, id: string)
    ensures before + "; use history_read with message_id=" + id + " to recover.]"
         == before + ("; use history_read with message_id=" + id + " to recover.]")
  {}

  lemma Flatten(a: string, b: string, c: string, d: string, e: string, f: string, g: string)
    ensures a + b + c + d + e + f + g == a + (b + (c + (d + (e + (f + g)))))
  {
    assert e + f + g == e + (f + g);
    assert d + (e + (f + g)) == d + e + (f + g);
    assert c + (d + e + (f + g)) == c + d + e + (f + g);
  }

  /** A header tells its three parts. */
  lemma HeaderBack(id: string, strategy: string, n: nat)
    requires ';' !in id && ';' !in strategy
    ensures ReadHeader(Header(id, strategy, n)) == Some(Recovery(id, strategy, n))
  {
    var end := "; use history_read with message_id=" + id + " to recover.]";
    var chars := "; original_chars=" + (Stream.Decimal(n) + end);
    var rest := "; strategy=" + (strategy + chars);
    HeaderNested(id, strategy, n);
    ParsePrinted(n);
    NoSemicolon(n);
    FieldBack("[XCoding compressed tool output; message_id=", id, rest);
    FieldBack("; strategy=", strategy, chars);
    FieldBack("; original_chars=", Stream.Decimal(n), end);
  }

  lemma NoSemicolon(n: nat)
    ensures ';' !in Stream.Decimal(n) && '\n' !in Stream.Decimal(n)
  {
    DecimalDigits(n);
  }

  // ---------- what is sent ----------

  /** Message ids are UUIDs; all that matters is that they hold neither of these. */
  predicate PlainId(id: string) {
    ';' !in id && '\n' !in id
  }

  /** One header line that names the message, the strategy and the length, and below it `text`. */
  predicate HeaderThen(sent: string, header: Recovery, text: string) {
    var at := IndexOf(sent, "\n");
    at >= 0 && ReadHeader(sent[..at]) == Some(header) && sent[at + 1..] == text
  }

  lemma HeaderIsOneLine(id: string, strategy: string, n: nat)
    requires '\n' !in id && '\n' !in strategy
    ensures '\n' !in Header(id, strategy, n)
  {
    NoSemicolon(n);
    WordsAreOneLine();
    assert '\n' !in RECOVERY_HEADER_PREFIX;
  }

  lemma WordsAreOneLine()
    ensures '\n' !in " message_id=" && '\n' !in "; strategy=" && '\n' !in "; original_chars="
    ensures '\n' !in "; use history_read with message_id=" && '\n' !in " to recover.]"
  {}

  lemma FirstFeedAfter(line: string, text: string)
    requires '\n' !in line
    ensures var sent := line + "\n" + text;
            IndexOf(sent, "\n") == |line| && sent[..|line|] == line && sent[|line| + 1..] == text
  {
    var sent := line + "\n" + text;
    assert sent[|line|..|line| + 1] == "\n";
    forall k | 0 <= k < |line| ensures !OccursAt(sent, "\n", k) {
      assert sent[k..k + 1][0] == line[k];
    }
    IndexFromIs(sent, "\n", 0, |line|);
  }

  lemma FinishCarries(original: string, compacted: string, strategy: string, id: string, options: Options)
    requires PlainId(id) && PlainId(strategy) && Finish(original, compacted, strategy, id, options).compressed
    ensures var out := Finish(original, compacted, strategy, id, options);
            out.strategy == Some(strategy) && HeaderThen(out.content, Recovery(id, strategy, |original|), compacted)
  {
    HeaderIsOneLine(id, strategy, |original|);
    HeaderBack(id, strategy, |original|);
    FirstFeedAfter(Header(id, strategy, |original|), compacted);
  }

  /** The compaction was written, and the written form is what is sent below the header. */
  ghost predicate Carries(codec: Codec, out: Outcome, strategy: string, compacted: Option<Json>, content: string,
                          id: string) {
    && out.strategy == Some(strategy)
    && compacted.Some? && codec.write(compacted.value).Some?
    && HeaderThen(out.content, Recovery(id, strategy, |content|), codec.write(compacted.value).value)
  }

  lemma FinishWithCarries(codec: Codec, compacted: Option<Json>, strategy: string, content: string, id: string,
                          options: Options)
    requires PlainId(id) && PlainId(strategy)
    requires FinishWith(codec, compacted, strategy, content, id, options).compressed
    ensures Carries(codec, FinishWith(codec, compacted, strategy, content, id, options), strategy, compacted, content,
                    id)
  {
    FinishCarries(content, codec.write(compacted.value).value, strategy, id, options);
  }

  lemma StrategiesPlain()
    ensures PlainId("run_command") && PlainId("search_code")
  {}

  lemma CompressedIsRead(codec: Codec, toolName: string, content: string, id: string, options: Options)
    ensures CompressToolOutput(codec, toolName, content, id, options).compressed ==>
      Admits(content, id, options) && codec.read(content).Some?
    ensures CompressStored(codec, content, id, options).compressed ==>
      Admits(content, id, options) && codec.read(content).Some?
  {}

  lemma LiveChoice(codec: Codec, toolName: string, run: Option<Json>, search: Option<Json>, content: string, id: string,
                   options: Options, out: Outcome)
    requires PlainId(id) && out.compressed
    requires out == if toolName == "run_command" then FinishWith(codec, run, "run_command", content, id, options)
                    else if toolName == "search_code"
                    then FinishWith(codec, search, "search_code", content, id, options)
                    else Unchanged(content)
    ensures toolName == "run_command" || toolName == "search_code"
    ensures Carries(codec, out, toolName, if toolName == "run_command" then run else search, content, id)
  {
    StrategiesPlain();
    if toolName == "run_command" {
      FinishWithCarries(codec, run, "run_command", content, id, options);
    } else if toolName == "search_code" {
      FinishWithCarries(codec, search, "search_code", content, id, options);
    }
  }

  lemma StoredChoice(codec: Codec, run: Option<Json>, search: Option<Json>, content: string, id: string,
                     options: Options, out: Outcome)
    requires PlainId(id) && out.compressed
    requires out == if run.Some? then FinishWith(codec, run, "run_command", content, id, options)
                    else FinishWith(codec, search, "search_code", content, id, options)
    ensures if run.Some? then Carries(codec, out, "run_command", run, content, id)
            else Carries(codec, out, "search_code", search, content, id)
  {
    StrategiesPlain();
    if run.Some? {
      FinishWithCarries(codec, run, "run_command", content, id, options);
    } else {
      FinishWithCarries(codec, search, "search_code", content, id, options);
    }
  }

  /** A compressed fresh output is the header for its own tool, then the written compaction of its
      value by that tool's rule. */
  lemma LiveCarries(codec: Codec, toolName: string, content: string, id: string, options: Options)
    requires PlainId(id) && CompressToolOutput(codec, toolName, content, id, options).compressed
    ensures toolName == "run_command" || toolName == "search_code"
    ensures codec.read(content).Some?
    ensures var value := codec.read(content).value;
            var compacted := if toolName == "run_command" then CompactRunCommand(value) else CompactSearchCode(value);
            Carries(codec, CompressToolOutput(codec, toolName, content, id, options), toolName, compacted, content, id)
  {
    CompressedIsRead(codec, toolName, content, id, options);
    var value := codec.read(content).value;
    EntryPoints(codec, toolName, content, id, options, value);
    LiveChoice(codec, toolName, CompactRunCommand(value), CompactSearchCode(value), content, id, options,
               CompressToolOutput(codec, toolName, content, id, options));
  }

  /** A compressed stored output is the header for the strategy its shape suggests, commands
      first, then the written compaction of its value by that rule. */
  lemma StoredCarries(codec: Codec, content: string, id: string, options: Options)
    requires PlainId(id) && CompressStored(codec, content, id, options).compressed
    ensures codec.read(content).Some?
    ensures var out := CompressStored(codec, content, id, options);
            var value := codec.read(content).value;
            if CompactRunCommand(value).Some?
            then Carries(codec, out, "run_command", CompactRunCommand(value), content, id)
            else Carries(codec, out, "search_code", CompactSearchCode(value), content, id)
  {
    CompressedIsRead(codec, "", content, id, options);
    var value := codec.read(content).value;
    EntryPoints(codec, "", content, id, options, value);
    StoredChoice(codec, CompactRunCommand(value), CompactSearchCode(value), content, id, options,
                 CompressStored(codec, content, id, options));
  }

  // ---------- exactly when ----------

  /** Compression is on, the message has an id, the text is long enough, and no header opens it. */
  ghost predicate Eligible(content: string, id: string, options: Options) {
    && options.enabled
    && !AllSpace(id, IsSpace)
    && |content| >= options.minChars
    && !StartsWith(TrimStart(content, IsSpace), "[XCoding compressed tool output;")
  }

  lemma EligibleExactly(content: string, id: string, options: Options)
    ensures Admits(content, id, options) <==> Eligible(content, id, options)
  {
    TrimmedAway(id, IsSpace);
  }

  lemma AdmittedExactly(codec: Codec, toolName: string, content: string, id: string, options: Options, value: Json)
    requires codec.read(content) == Some(value) && Admits(content, id, options)
    ensures var run := PaysOff(codec, CompactRunCommand(value), "run_command", content, id, options);
            var search := PaysOff(codec, CompactSearchCode(value), "search_code", content, id, options);
            && (CompressToolOutput(codec, toolName, content, id, options).compressed
                <==> (toolName == "run_command" && run) || (toolName == "search_code" && search))
            && (CompressStored(codec, content, id, options).compressed
                <==> if CompactRunCommand(value).Some? then run else search)
  {
    EntryPoints(codec, toolName, content, id, options, value);
    FinishWithExactly(codec, CompactRunCommand(value), "run_command", content, id, options);
    FinishWithExactly(codec, CompactSearchCode(value), "search_code", content, id, options);
  }

  /** A fresh output is compressed if and only if it is eligible, its tool is one of the two, it
      can be read, its value compacted and written again, and the saving is large enough. */
  lemma LiveExactly(codec: Codec, toolName: string, content: string, id: string, options: Options)
    ensures CompressToolOutput(codec, toolName, content, id, options).compressed
       <==> (&& Eligible(content, id, options) && codec.read(content).Some?
             && var value := codec.read(content).value;
                || (&& toolName == "run_command"
                    && PaysOff(codec, CompactRunCommand(value), toolName, content, id, options))
                || (&& toolName == "search_code"
                    && PaysOff(codec, CompactSearchCode(value), toolName, content, id, options)))
  {
    EligibleExactly(content, id, options);
    CompressedIsRead(codec, toolName, content, id, options);
    if Admits(content, id, options) && codec.read(content).Some? {
      AdmittedExactly(codec, toolName, content, id, options, codec.read(content).value);
    }
  }

  /** A stored output is compressed if and only if it is eligible, can be read, and the compaction
      its shape suggests, commands first, can be written and saves enough. */
  lemma StoredExactly(codec: Codec, content: string, id: string, options: Options)
    ensures CompressStored(codec, content, id, options).compressed
       <==> (&& Eligible(content, id, options) && codec.read(content).Some?
             && var value := codec.read(content).value;
                if CompactRunCommand(value).Some?
                then PaysOff(codec, CompactRunCommand(value), "run_command", content, id, options)
                else PaysOff(codec, CompactSearchCode(value), "search_code", content, id, options))
  {
    EligibleExactly(content, id, options);
    CompressedIsRead(codec, "", content, id, options);
    if Admits(content, id, options) && codec.read(content).Some? {
      AdmittedExactly(codec, "", content, id, options, codec.read(content).value);
    }
  }

  // ---------- what a compaction is ----------

  /** A command result is compacted if and only if it reports success, exit code 0 and no timeout,
      and the compact form of one of its two streams differs from the stream. */
  lemma RunCommandExactly(value: Json)
    ensures CompactRunCommand(value).Some?
       <==> (&& value.Object?
             && "success" in value.fields && value.fields["success"] == Bool(true)
             && "exit_code" in value.fields && value.fields["exit_code"] == Integer(0)
             && "timed_out" in value.fields && value.fields["timed_out"] == Bool(false)
             && (StreamChanges(value.fields, "stdout") || StreamChanges(value.fields, "stderr")))
  {
    if value.Object? && RunSucceeded(value.fields) {
      ChangedExactly(value.fields);
    }
  }

  predicate StreamChanges(fields: map<string, Json>, key: string) {
    key in fields && fields[key].Str? && Stream.Compact(fields[key].s) != fields[key].s
  }

  lemma ChangedExactly(fields: map<string, Json>)
    ensures WithStream(WithStream(fields, "stdout"), "stderr") != fields
       <==> StreamChanges(fields, "stdout") || StreamChanges(fields, "stderr")
  {
    var once := WithStream(fields, "stdout");
    var twice := WithStream(once, "stderr");
    StreamStep(fields, "stdout");
    StreamStep(once, "stderr");
    assert Get(once, "stderr") == Get(fields, "stderr");
    assert Get(twice, "stdout") == Get(once, "stdout");
    if StreamChanges(fields, "stdout") { assert twice["stdout"] != fields["stdout"]; }
    if StreamChanges(fields, "stderr") { assert twice["stderr"] != fields["stderr"]; }
  }

  lemma StreamStep(fields: map<string, Json>, key: string)
    ensures forall k :: k != key ==> Get(WithStream(fields, key), k) == Get(fields, k)
    ensures StreamChanges(fields, key) ==> WithStream(fields, key) == fields[key := Str(Stream.Compact(fields[key].s))]
    ensures !StreamChanges(fields, key) ==> WithStream(fields, key) == fields
  {}

  /** In the compacted command result the two streams are their compact forms and nothing else
      changed. */
  lemma RunCommandBecomes(value: Json)
    requires CompactRunCommand(value).Some?
    ensures value.Object? && CompactRunCommand(value).value.Object?
    ensures var out := CompactRunCommand(value).value.fields;
            && out.Keys == value.fields.Keys
            && (forall k :: k in out ==>
                  out[k] == if (k == "stdout" || k == "stderr") && value.fields[k].Str?
                            then Str(Stream.Compact(value.fields[k].s)) else value.fields[k])
  {
    RunCommandKeepsFields(value);
    var out := CompactRunCommand(value).value.fields;
    forall k | k in out
      ensures out[k] == if (k == "stdout" || k == "stderr") && value.fields[k].Str?
                        then Str(Stream.Compact(value.fields[k].s)) else value.fields[k]
    {
      assert k == "stdout" ==> Get(out, "stdout") == CompactField(value.fields, "stdout");
      assert k == "stderr" ==> Get(out, "stderr") == CompactField(value.fields, "stderr");
    }
  }

  predicate Whole(fields: map<string, Json>, key: string) {
    key in fields && fields[key].Integer? && 0 <= fields[key].n <= 0xFFFF_FFFF_FFFF_FFFF
  }

  predicate Result(result: Json) {
    && result.Object?
    && "path" in result.fields && result.fields["path"].Str?
    && Whole(result.fields, "line")
    && "text" in result.fields && result.fields["text"].Str?
    && ("before" in result.fields ==> result.fields["before"].Array?)
    && ("after" in result.fields ==> result.fields["after"].Array?)
  }

  /** A search result is compacted if and only if it does not report failure or a timeout and has
      its results, its truncation flag and its four counters in shape. */
  lemma SearchExactly(value: Json)
    ensures CompactSearchCode(value).Some?
       <==> (&& value.Object?
             && ("success" in value.fields ==> value.fields["success"] == Bool(true))
             && ("timed_out" in value.fields ==> value.fields["timed_out"] == Bool(false))
             && "truncated" in value.fields && value.fields["truncated"].Bool?
             && "stats" in value.fields && value.fields["stats"].Object?
             && Counters(value.fields["stats"].fields)
             && "results" in value.fields && value.fields["results"].Array?
             && (forall i :: 0 <= i < |value.fields["results"].items| ==> Result(value.fields["results"].items[i])))
  {
    if value.Object? && "stats" in value.fields && value.fields["stats"].Object? {
      CountersExactly(value.fields["stats"].fields);
    }
    assert forall r :: ResultShape(r) <==> Result(r);
  }

  predicate Counters(stats: map<string, Json>) {
    Whole(stats, "directories_scanned") && Whole(stats, "files_scanned") && Whole(stats, "bytes_scanned")
    && Whole(stats, "elapsed_ms")
  }

  lemma CountersExactly(stats: map<string, Json>)
    ensures (forall i :: 0 <= i < |STAT_KEYS| ==> IsU64(Get(stats, STAT_KEYS[i]))) <==> Counters(stats)
  {
    assert STAT_KEYS[0] == "directories_scanned" && STAT_KEYS[1] == "files_scanned";
    assert STAT_KEYS[2] == "bytes_scanned" && STAT_KEYS[3] == "elapsed_ms";
  }

  /** Path, line and text of a result and nothing more. */
  ghost predicate Cut(before: Json, after: Json) {
    && before.Object? && after.Object? && after.fields.Keys == {"path", "line", "text"}
    && forall k :: k in after.fields ==> k in before.fields && after.fields[k] == before.fields[k]
  }

  /** In the compacted search result every hit keeps its path, line and text, in order, and every
      other field is as it was. */
  lemma SearchBecomes(value: Json)
    requires CompactSearchCode(value).Some?
    ensures value.Object? && "results" in value.fields && value.fields["results"].Array?
    ensures CompactSearchCode(value).value.Object? && "results" in CompactSearchCode(value).value.fields
    ensures var before, after := value.fields, CompactSearchCode(value).value.fields;
            && after.Keys == before.Keys
            && (forall k :: k in before && k != "results" ==> after[k] == before[k])
            && after["results"].Array? && |after["results"].items| == |before["results"].items|
            && (forall i :: 0 <= i < |before["results"].items| ==>
                  Cut(before["results"].items[i], after["results"].items[i]))
  {
    var hits := value.fields["results"].items;
    var kept := CompactResults(hits).value;
    forall i | 0 <= i < |hits| ensures Cut(hits[i], kept[i]) {
      assert kept[i] == CompactResult(hits[i]);
    }
  }
}

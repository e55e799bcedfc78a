/** Replies to an earlier message: the target travels in front of the text as a marker, an
    instruction to the model and a quote, and is read back from there. */
module ReplyCodec {
  import opened Text
  import opened Seqs
  import opened Wrappers
  import opened Markers

  const MAX_REPLY_QUOTE_CHARS: nat := 12000
  const ELLIPSIS: string := "\n\U{2026}"

  datatype ReplyTarget = ReplyTarget(messageId: string, content: string, createdAt: string)

  datatype ParsedReply = ParsedReply(target: ReplyTarget, quote: string, text: string)

  /** `encodeURIComponent` and `decodeURIComponent`; decoding can fail. */
  datatype UriCodec = UriCodec(encode: string -> string, decode: string -> Option<string>)

  /** The characters that percent-encoding leaves in a component. */
  predicate UriChar(c: char) {
    'a' <= c <= 'z' || 'A' <= c <= 'Z' || '0' <= c <= '9' || c in "-_.!~*'()%"
  }

  /** Decoding undoes encoding, and the encoded form is made of unreserved characters and
      percent signs, as section 2.1 of RFC 3986 has it. */
  ghost predicate Lawful(uri: UriCodec) {
    && (forall s :: uri.decode(uri.encode(s)) == Some(s))
    && (forall s :: forall c :: c in uri.encode(s) ==> UriChar(c))
  }

  // ---------- writing ----------

  function Cut(s: string, max: nat, mark: string): (r: string) {
    if |s| <= max then s else s[..max] + mark
  }

  function Truncate(content: string): (r: string) {
    Cut(TrimJs(content), MAX_REPLY_QUOTE_CHARS, ELLIPSIS)
  }

  function QuoteLine(line: string): (r: string) {
    if line != "" then "> " + line else ">"
  }

  function QuoteText(s: string): (r: string) {
    Join(Map(QuoteLine, Split(s, '\n')), '\n')
  }

  function Quoted(content: string): (r: string) {
    QuoteText(Truncate(content))
  }

  function Payload(target: ReplyTarget, uri: UriCodec): (r: string) {
    target.messageId + ("|" + uri.encode(target.createdAt))
  }

  function InstructionWords(): (r: string) {
    Join(INSTRUCTION_WORDS, ' ') + " "
  }

  /** The instruction on a line of its own, then the body. */
  function Preface(body: string): (r: string) {
    "\n" + (INSTRUCTION_BEGIN + InstructionWords() + (INSTRUCTION_END + ("\n" + body)))
  }

  /** The marker, the instruction and the body. */
  function Envelope(target: ReplyTarget, uri: UriCodec, body: string): (r: string) {
    REPLY_BEGIN + (Payload(target, uri) + (" " + (REPLY_END + Preface(body))))
  }

  function FormatReply(message: string, target: ReplyTarget, uri: UriCodec): (r: string) {
    Envelope(target, uri, Quoted(target.content) + ("\n\n" + TrimJs(message)))
  }

  // ---------- reading ----------

  function ParsePayload(payload: string, uri: UriCodec, trim: string -> string): (r: (string, string)) {
    var separator := IndexOf(payload, "|");
    if separator < 0 then (trim(payload), "")
    else
      var decoded := uri.decode(trim(payload[separator + 1..]));
      (trim(payload[..separator]), if decoded.Some? then decoded.value else "")
  }

  function SkipBlock(body: string, opening: string, closing: string, trim: string -> string): (r: string) {
    var end := IndexOf(body, closing);
    if StartsWith(body, opening) && end >= 0 then trim(body[end + |closing|..]) else body
  }

  function SkipInstruction(body: string): (r: string) {
    SkipBlock(body, INSTRUCTION_BEGIN, INSTRUCTION_END, TrimStartJs)
  }

  /** Drops a leading `>` and one white-space character after it. */
  function UnquoteLine(line: string): (r: string) {
    if line == "" || line[0] != '>' then line
    else if |line| > 1 && IsJsSpace(line[1]) then line[2..]
    else line[1..]
  }

  function ParseBody(body: string): (r: Option<(string, string)>) {
    var divider := IndexOf(body, "\n\n");
    if divider < 0 then None
    else
      var block := TrimJs(body[..divider]);
      if !StartsWith(block, ">") then None
      else Some((TrimJs(Join(Map(UnquoteLine, Split(block, '\n')), '\n')), TrimJs(body[divider + 2..])))
  }

  /** The trimmed text between the first `opening` and the next `closing`, and what follows. */
  function SplitMarker(content: string, opening: string, closing: string, trim: string -> string)
    : (r: Option<(string, string)>)
  {
    var start := IndexOf(content, opening);
    if start < 0 then None
    else
      var end := IndexFrom(content, closing, start);
      if end < 0 then None
      else Some((trim(Slice(content, start + |opening|, end)), content[end + |closing|..]))
  }

  /** Payload and body are read each on its own; without an id or a body there is no reply. */
  function Assemble(marker: Option<(string, string)>, readPayload: string -> (string, string),
                    readBody: string -> Option<(string, string)>): (r: Option<ParsedReply>) {
    if marker.None? then None
    else
      var (id, createdAt) := readPayload(marker.value.0);
      var body := readBody(marker.value.1);
      if id == "" || body.None? then None else Some(Read(id, createdAt, body.value))
  }

  function PayloadReader(uri: UriCodec): (r: string -> (string, string)) {
    (payload: string) => ParsePayload(payload, uri, TrimJs)
  }

  function ReadBody(rest: string): (r: Option<(string, string)>) {
    ParseBody(SkipInstruction(TrimStartJs(rest)))
  }

  function ParseReply(content: string, uri: UriCodec): (r: Option<ParsedReply>) {
    Assemble(SplitMarker(content, REPLY_BEGIN, REPLY_END, TrimJs), PayloadReader(uri), ReadBody)
  }

  function Read(id: string, createdAt: string, body: (string, string)): (r: ParsedReply) {
    ParsedReply(ReplyTarget(id, body.0, createdAt), body.0, body.1)
  }

  /** What a sent reply is meant to be read as. */
  function Sent(message: string, target: ReplyTarget): (r: ParsedReply) {
    ParsedReply(target.(content := Truncate(target.content)), Truncate(target.content), TrimJs(message))
  }

  // ---------- the quote ----------

  lemma TrimTrimmed(s: string)
    requires Trimmed(s, IsJsSpace)
    ensures TrimJs(s) == s
  {
    TrimmedIsFixed(s, IsJsSpace);
  }

  lemma CutTrimmed(s: string, max: nat, mark: string)
    requires Trimmed(s, IsJsSpace) && mark != "" && !IsJsSpace(mark[|mark| - 1]) && max > 0
    ensures Trimmed(Cut(s, max, mark), IsJsSpace)
  {
    if |s| > max {
      var r := s[..max] + mark;
      assert r[0] == s[0] && r[|r| - 1] == mark[|mark| - 1];
    }
  }

  lemma CutTwice(s: string, max: nat, mark: string)
    ensures Cut(Cut(s, max, mark), max, mark) == Cut(s, max, mark)
  {
    if |s| > max {
      assert (s[..max] + mark)[..max] == s[..max];
      assert mark == "" ==> s[..max] + mark == s[..max];
    }
  }

  lemma TruncateTrimmed(content: string)
    ensures Trimmed(Truncate(content), IsJsSpace)
  {
    CutTrimmed(TrimJs(content), MAX_REPLY_QUOTE_CHARS, ELLIPSIS);
  }

  /** A quote that was cut is cut at the same place again. */
  lemma TruncateIdempotent(content: string)
    ensures Truncate(Truncate(content)) == Truncate(content)
  {
    TruncateTrimmed(content);
    TrimTrimmed(Truncate(content));
    CutTwice(TrimJs(content), MAX_REPLY_QUOTE_CHARS, ELLIPSIS);
  }

  lemma UnquoteQuote(line: string)
    ensures UnquoteLine(QuoteLine(line)) == line
  {
    assert line != "" ==> ("> " + line)[2..] == line;
  }

  /** Pieces as `QuoteLine` makes them. */
  ghost predicate QuotePieces(parts: seq<string>) {
    forall i :: 0 <= i < |parts| ==> parts[i] != "" && parts[i][0] == '>' && '\n' !in parts[i]
  }

  lemma QuoteLineIsPiece(line: string)
    requires '\n' !in line
    ensures QuoteLine(line) != "" && QuoteLine(line)[0] == '>' && '\n' !in QuoteLine(line)
  {}

  lemma LinesQuoted(s: string)
    ensures QuotePieces(Map(QuoteLine, Split(s, '\n')))
    ensures Map(UnquoteLine, Map(QuoteLine, Split(s, '\n'))) == Split(s, '\n')
  {
    var lines := Split(s, '\n');
    forall i | 0 <= i < |lines|
      ensures '\n' !in lines[i] && UnquoteLine(QuoteLine(lines[i])) == lines[i]
    {
      UnquoteQuote(lines[i]);
    }
    forall i | 0 <= i < |lines|
      ensures QuoteLine(lines[i]) != "" && QuoteLine(lines[i])[0] == '>' && '\n' !in QuoteLine(lines[i])
    {
      QuoteLineIsPiece(lines[i]);
    }
  }

  /** Every line feed is followed by something other than a line feed. */
  ghost predicate NoBlankLine(s: string) {
    forall k :: 0 <= k < |s| && s[k] == '\n' ==> k + 1 < |s| && s[k + 1] != '\n'
  }

  lemma {:induction false} QuoteHasNoBlankLine(parts: seq<string>)
    requires QuotePieces(parts) && parts != []
    ensures NoBlankLine(Join(parts, '\n'))
    ensures Join(parts, '\n') != "" && Join(parts, '\n')[0] == '>'
  {
    if |parts| > 1 {
      QuoteHasNoBlankLine(parts[1..]);
      NoBlankLineAppend(parts[0], Join(parts[1..], '\n'));
    }
  }

  lemma NoBlankLineAppend(head: string, tail: string)
    requires '\n' !in head && NoBlankLine(tail) && tail != "" && tail[0] != '\n'
    ensures NoBlankLine(head + ['\n'] + tail)
  {
    var s := head + ['\n'] + tail;
    forall k | 0 <= k < |s| && s[k] == '\n'
      ensures k + 1 < |s| && s[k + 1] != '\n'
    {
      if k > |head| {
        assert s[k] == tail[k - |head| - 1];
        assert k + 1 < |s| ==> s[k + 1] == tail[k - |head|];
      }
    }
  }

  lemma {:induction false} JoinLast(parts: seq<string>, c: char)
    requires parts != []
    ensures var (last, whole) := (parts[|parts| - 1], Join(parts, c));
            && (last != "" ==> whole != "" && whole[|whole| - 1] == last[|last| - 1])
            && (last == "" ==> whole == "" || whole[|whole| - 1] == c)
  {
    if |parts| > 1 {
      JoinLast(parts[1..], c);
    }
  }

  lemma QuoteLast(lines: seq<string>, quoted: seq<string>, s: string)
    requires |lines| == |quoted| > 0 && quoted[|quoted| - 1] == QuoteLine(lines[|lines| - 1])
    requires s == Join(lines, '\n') && (s != "" ==> s[|s| - 1] != '\n')
    ensures var q := Join(quoted, '\n');
            q != "" && q[|q| - 1] == if s == "" then '>' else s[|s| - 1]
  {
    JoinLast(lines, '\n');
    JoinLast(quoted, '\n');
    QuoteLineEnd(lines[|lines| - 1]);
  }

  /** A trimmed text stays trimmed when its lines are quoted. */
  lemma QuoteTrimmed(lines: seq<string>, quoted: seq<string>, s: string)
    requires |lines| == |quoted| > 0 && quoted[|quoted| - 1] == QuoteLine(lines[|lines| - 1])
    requires QuotePieces(quoted) && s == Join(lines, '\n') && Trimmed(s, IsJsSpace)
    ensures Trimmed(Join(quoted, '\n'), IsJsSpace)
    ensures NoBlankLine(Join(quoted, '\n')) && Join(quoted, '\n') != "" && Join(quoted, '\n')[0] == '>'
  {
    QuoteHasNoBlankLine(quoted);
    QuoteLast(lines, quoted, s);
  }

  lemma QuoteLineEnd(line: string)
    ensures var q := QuoteLine(line);
            q != "" && q[|q| - 1] == if line == "" then '>' else line[|line| - 1]
  {}

  lemma QuoteLinesTrimmed(lines: seq<string>, s: string)
    requires lines != [] && (forall i :: 0 <= i < |lines| ==> '\n' !in lines[i])
    requires s == Join(lines, '\n') && Trimmed(s, IsJsSpace)
    ensures var quoted := Join(Map(QuoteLine, lines), '\n');
            Trimmed(quoted, IsJsSpace) && NoBlankLine(quoted) && quoted != "" && quoted[0] == '>'
  {
    forall i | 0 <= i < |lines|
      ensures QuoteLine(lines[i]) != "" && QuoteLine(lines[i])[0] == '>' && '\n' !in QuoteLine(lines[i])
    {
      QuoteLineIsPiece(lines[i]);
    }
    QuoteTrimmed(lines, Map(QuoteLine, lines), s);
  }

  lemma PiecesSingle(s: string)
    ensures forall i :: 0 <= i < |Split(s, '\n')| ==> '\n' !in Split(s, '\n')[i]
  {}

  lemma QuoteTextTrimmed(s: string)
    requires Trimmed(s, IsJsSpace)
    ensures Trimmed(QuoteText(s), IsJsSpace)
    ensures NoBlankLine(QuoteText(s)) && QuoteText(s) != "" && QuoteText(s)[0] == '>'
  {
    JoinSplit(s, '\n');
    PiecesSingle(s);
    QuoteLinesTrimmed(Split(s, '\n'), s);
  }

  lemma QuotedTrimmed(content: string)
    ensures Trimmed(Quoted(content), IsJsSpace)
    ensures NoBlankLine(Quoted(content)) && Quoted(content) != "" && Quoted(content)[0] == '>'
  {
    TruncateTrimmed(content);
    QuoteTextTrimmed(Truncate(content));
  }

  /** The quote is read back from its block. */
  lemma QuoteBack(content: string)
    ensures TrimJs(Join(Map(UnquoteLine, Split(Quoted(content), '\n')), '\n')) == Truncate(content)
  {
    var s := Truncate(content);
    LinesQuoted(s);
    SplitJoin(Map(QuoteLine, Split(s, '\n')), '\n');
    JoinSplit(s, '\n');
    TruncateTrimmed(content);
    TrimTrimmed(s);
  }

  lemma DividerAt(quoted: string, text: string)
    requires NoBlankLine(quoted)
    ensures IndexOf(quoted + ("\n\n" + text), "\n\n") == |quoted|
  {
    var s := quoted + ("\n\n" + text);
    assert s[|quoted|..|quoted| + 2] == "\n\n";
    forall k | 0 <= k < |quoted|
      ensures !OccursAt(s, "\n\n", k)
    {
      if OccursAt(s, "\n\n", k) {
        OccursCharAt(s, "\n\n", k, 0);
        OccursCharAt(s, "\n\n", k, 1);
      }
    }
    IndexFromIs(s, "\n\n", 0, |quoted|);
  }

  lemma BodySplit(quoted: string, text: string)
    requires NoBlankLine(quoted) && Trimmed(quoted, IsJsSpace) && quoted != "" && quoted[0] == '>'
    ensures ParseBody(quoted + ("\n\n" + text))
         == Some((TrimJs(Join(Map(UnquoteLine, Split(quoted, '\n')), '\n')), TrimJs(text)))
  {
    var body := quoted + ("\n\n" + text);
    DividerAt(quoted, text);
    assert body[..|quoted|] == quoted && body[|quoted| + 2..] == text;
    TrimTrimmed(quoted);
    assert quoted[..1] == ">";
  }

  lemma BodyBack(content: string, message: string)
    ensures ParseBody(Quoted(content) + ("\n\n" + TrimJs(message))) == Some((Truncate(content), TrimJs(message)))
  {
    QuotedTrimmed(content);
    BodySplit(Quoted(content), TrimJs(message));
    QuoteBack(content);
    TrimTrimmed(TrimJs(message));
  }

  /** Without its divider a quote is not a body. */
  lemma BodyLost(content: string)
    ensures ParseBody(Quoted(content)).None?
  {
    QuotedTrimmed(content);
    NoDivider(Quoted(content));
  }

  lemma NoDivider(s: string)
    requires NoBlankLine(s)
    ensures IndexOf(s, "\n\n") < 0
  {
    var k := IndexOf(s, "\n\n");
    if k >= 0 {
      OccursCharAt(s, "\n\n", k, 0);
      OccursCharAt(s, "\n\n", k, 1);
    }
  }

  // ---------- the marker ----------

  /** Ids that the marker can carry. */
  predicate CarriedId(id: string) {
    id != "" && Trimmed(id, IsJsSpace) && '|' !in id && !Contains(id, REPLY_END)
  }

  lemma PayloadBack(target: ReplyTarget, uri: UriCodec)
    requires Lawful(uri) && CarriedId(target.messageId)
    ensures TrimJs(Payload(target, uri) + " ") == Payload(target, uri)
    ensures ParsePayload(Payload(target, uri), uri, TrimJs) == (target.messageId, target.createdAt)
  {
    var id, date := target.messageId, uri.encode(target.createdAt);
    DateTrimmed(target.createdAt, uri);
    PayloadTrimmed(id, date);
    TrimTrimmed(id);
    TrimTrimmed(date);
    PayloadParts(id, date, uri, TrimJs);
  }

  lemma PayloadParts(id: string, date: string, uri: UriCodec, trim: string -> string)
    requires '|' !in id && trim(id) == id && trim(date) == date && uri.decode(date).Some?
    ensures ParsePayload(id + ("|" + date), uri, trim) == (id, uri.decode(date).value)
  {
    SeparatorAt(id, date);
    PayloadShape(id, date);
  }

  lemma PayloadTrimmed(id: string, date: string)
    requires id != "" && Trimmed(id, IsJsSpace) && Trimmed(date, IsJsSpace)
    ensures TrimJs(id + ("|" + date) + " ") == id + ("|" + date)
  {
    var payload := id + ("|" + date);
    assert payload[0] == id[0];
    assert payload[|payload| - 1] == if date != "" then date[|date| - 1] else '|';
    TrimOverEnd(payload, " ", IsJsSpace);
  }

  lemma PayloadShape(id: string, date: string)
    ensures var payload := id + ("|" + date);
            payload[..|id|] == id && payload[|id| + 1..] == date
  {}

  lemma SeparatorAt(id: string, date: string)
    requires '|' !in id
    ensures IndexOf(id + ("|" + date), "|") == |id|
  {
    FindFirst(id, "|", date);
  }

  lemma UriCharPlain(c: char)
    requires UriChar(c)
    ensures !IsJsSpace(c) && c != '<' && c != '>'
  {}

  lemma DateTrimmed(date: string, uri: UriCodec)
    requires Lawful(uri)
    ensures Trimmed(uri.encode(date), IsJsSpace)
    ensures '>' !in uri.encode(date) && '<' !in uri.encode(date)
  {
    forall c | c in uri.encode(date)
      ensures !IsJsSpace(c) && c != '<' && c != '>'
    {
      UriCharPlain(c);
    }
  }

  lemma MarkerEnd(opening: string, id: string, date: string, closing: string, rest: string)
    requires opening != "" && opening[|opening| - 1] !in closing && EndsOnce(closing)
    requires closing[|closing| - 1] !in opening && closing[|closing| - 1] !in date
    requires '|' !in closing && ' ' != closing[|closing| - 1] && !Contains(id, closing)
    ensures IndexOf(opening + id + "|" + (date + " " + (closing + rest)), closing) == |opening| + |id| + |date| + 2
  {
    CharLacks(opening, closing, |closing| - 1);
    AppendLacks(opening, id, closing);
    BarLacks(opening + id, closing);
    FindMark(opening + id + "|", date + " ", closing, rest, 0);
  }

  /** A marker's parts, once its two ends are found. */
  lemma MarkerParts(opening: string, inner: string, closing: string, rest: string, trim: string -> string)
    requires IndexOf(opening + inner + closing + rest, closing) == |opening| + |inner|
    ensures SplitMarker(opening + inner + closing + rest, opening, closing, trim) == Some((trim(inner), rest))
  {
    var content := opening + inner + closing + rest;
    assert content[0..|opening|] == opening;
    IndexFromIs(content, opening, 0, 0);
    assert content[|opening|..|opening| + |inner|] == inner;
    assert content[|opening| + |inner| + |closing|..] == rest;
  }

  /** The marker is found where it was written although the id may hold any character but a bar. */
  lemma MarkerBack(opening: string, id: string, date: string, closing: string, rest: string)
    requires opening != "" && opening[|opening| - 1] !in closing && EndsOnce(closing)
    requires closing[|closing| - 1] !in opening && closing[|closing| - 1] !in date
    requires '|' !in closing && ' ' != closing[|closing| - 1] && !Contains(id, closing)
    ensures SplitMarker(opening + (id + ("|" + date) + (" " + (closing + rest))), opening, closing, TrimJs)
         == Some((TrimJs(id + ("|" + date) + " "), rest))
  {
    var inner := id + ("|" + date) + " ";
    MarkerEnd(opening, id, date, closing, rest);
    RegroupEnd(opening, id, date, closing, rest);
    MarkerParts(opening, inner, closing, rest, TrimJs);
    RegroupPayload(opening, id + ("|" + date), closing, rest);
  }

  lemma RegroupEnd(a: string, b: string, c: string, d: string, e: string)
    ensures a + b + "|" + (c + " " + (d + e)) == a + (b + ("|" + c) + " ") + d + e
  {
    assert b + ("|" + c) + " " == b + "|" + (c + " ");
  }

  lemma RegroupPayload(a: string, b: string, c: string, d: string)
    ensures a + (b + (" " + (c + d))) == a + (b + " ") + c + d
  {}

  lemma BarLacks(a: string, p: string)
    requires p != "" && '|' !in p && !Contains(a, p)
    ensures !Contains(a + "|", p)
  {
    CharLacks("|", p, 0);
    AppendLacks(a, "|", p);
  }

  lemma ReplyMarkers()
    ensures REPLY_BEGIN[|REPLY_BEGIN| - 1] !in REPLY_END && EndsOnce(REPLY_END)
    ensures REPLY_END[|REPLY_END| - 1] == '>' && '>' !in REPLY_BEGIN && '|' !in REPLY_END
  {}

  /** Neither angle bracket occurs. */
  predicate Unbracketed(s: string) {
    '<' !in s && '>' !in s
  }

  lemma UnbracketedAppend(a: string, b: string)
    requires Unbracketed(a) && Unbracketed(b)
    ensures Unbracketed(a + b)
  {}

  lemma WordUnbracketed(i: nat)
    requires i < |INSTRUCTION_WORDS|
    ensures Unbracketed(INSTRUCTION_WORDS[i])
  {}

  lemma {:induction false} JoinUnbracketed(words: seq<string>)
    requires forall i :: 0 <= i < |words| ==> Unbracketed(words[i])
    ensures Unbracketed(Join(words, ' '))
  {
    if |words| > 1 {
      JoinUnbracketed(words[1..]);
      UnbracketedAppend(words[0], " ");
      UnbracketedAppend(words[0] + [' '], Join(words[1..], ' '));
    }
  }

  lemma WordsUnbracketed()
    ensures Unbracketed(InstructionWords())
  {
    forall i | 0 <= i < |INSTRUCTION_WORDS| ensures Unbracketed(INSTRUCTION_WORDS[i]) { WordUnbracketed(i); }
    JoinUnbracketed(INSTRUCTION_WORDS);
    UnbracketedAppend(Join(INSTRUCTION_WORDS, ' '), " ");
  }

  lemma BlockEnd(head: string, opening: string, closing: string, rest: string, trim: string -> string)
    requires EndsOnce(closing) && closing[|closing| - 1] !in head && StartsWith(head, opening)
    ensures SkipBlock(head + (closing + rest), opening, closing, trim) == trim(rest)
  {
    FindFirst(head, closing, rest);
    BlockShape(head, opening, closing, rest);
  }

  lemma BlockShape(head: string, opening: string, closing: string, rest: string)
    requires StartsWith(head, opening)
    ensures StartsWith(head + (closing + rest), opening)
    ensures (head + (closing + rest))[|head| + |closing|..] == rest
  {
    assert (head + (closing + rest))[..|opening|] == head[..|opening|];
  }

  lemma AfterLineFeed(s: string)
    requires s != "" && !IsJsSpace(s[0])
    ensures TrimStartJs("\n" + s) == s
  {
    TrimStartOver("\n", s, IsJsSpace);
  }

  /** A block that was written is skipped, with the line feeds around it. */
  lemma BlockSkipped(opening: string, words: string, closing: string, tail: string)
    requires opening != "" && !IsJsSpace(opening[0]) && EndsOnce(closing)
    requires closing[|closing| - 1] !in opening + words
    requires tail != "" && !IsJsSpace(tail[0])
    ensures var body := TrimStartJs("\n" + (opening + words + (closing + ("\n" + tail))));
            SkipBlock(body, opening, closing, TrimStartJs) == tail
  {
    var body := opening + words + (closing + ("\n" + tail));
    assert body[0] == opening[0];
    AfterLineFeed(body);
    assert (opening + words)[..|opening|] == opening;
    BlockEnd(opening + words, opening, closing, "\n" + tail, TrimStartJs);
    AfterLineFeed(tail);
  }

  lemma InstructionMarkers()
    ensures INSTRUCTION_BEGIN[0] == '<' && '>' !in INSTRUCTION_BEGIN
    ensures INSTRUCTION_END[|INSTRUCTION_END| - 1] == '>' && EndsOnce(INSTRUCTION_END)
  {}

  lemma PrefaceSkipped(body: string)
    requires body != "" && !IsJsSpace(body[0])
    ensures SkipInstruction(TrimStartJs(Preface(body))) == body
  {
    InstructionMarkers();
    WordsUnbracketed();
    BlockSkipped(INSTRUCTION_BEGIN, InstructionWords(), INSTRUCTION_END, body);
  }

  // ---------- the round trip ----------

  /** Without a body there is no reply; with one it is made of what was read. */
  lemma Assembled(payload: string, rest: string, readPayload: string -> (string, string),
                  readBody: string -> Option<(string, string)>)
    requires readPayload(payload).0 != ""
    ensures Assemble(Some((payload, rest)), readPayload, readBody)
         == if readBody(rest).None? then None
            else Some(Read(readPayload(payload).0, readPayload(payload).1, readBody(rest).value))
  {}

  lemma EnvelopeMarker(target: ReplyTarget, uri: UriCodec, body: string)
    requires Lawful(uri) && CarriedId(target.messageId)
    ensures SplitMarker(Envelope(target, uri, body), REPLY_BEGIN, REPLY_END, TrimJs)
         == Some((Payload(target, uri), Preface(body)))
  {
    ReplyMarkers();
    DateTrimmed(target.createdAt, uri);
    MarkerBack(REPLY_BEGIN, target.messageId, uri.encode(target.createdAt), REPLY_END, Preface(body));
    PayloadBack(target, uri);
  }

  lemma PrefaceRead(body: string)
    requires body != "" && !IsJsSpace(body[0])
    ensures ReadBody(Preface(body)) == ParseBody(body)
  {
    PrefaceSkipped(body);
  }

  lemma PayloadRead(target: ReplyTarget, uri: UriCodec)
    requires Lawful(uri) && CarriedId(target.messageId)
    ensures PayloadReader(uri)(Payload(target, uri)) == (target.messageId, target.createdAt)
  {
    PayloadBack(target, uri);
  }

  lemma ParseEnvelope(target: ReplyTarget, uri: UriCodec, body: string)
    requires Lawful(uri) && CarriedId(target.messageId)
    requires body != "" && !IsJsSpace(body[0])
    ensures ParseReply(Envelope(target, uri, body), uri)
         == if ParseBody(body).None? then None
            else Some(Read(target.messageId, target.createdAt, ParseBody(body).value))
  {
    EnvelopeMarker(target, uri, body);
    PayloadRead(target, uri);
    PrefaceRead(body);
    Assembled(Payload(target, uri), Preface(body), PayloadReader(uri), ReadBody);
  }

  /** Whatever the message and the quoted text are, a formatted reply is read back as its
      trimmed text, its target and the truncated quote. */
  lemma ReplyBack(message: string, target: ReplyTarget, uri: UriCodec)
    requires Lawful(uri) && CarriedId(target.messageId)
    ensures ParseReply(FormatReply(message, target, uri), uri) == Some(Sent(message, target))
  {
    QuotedTrimmed(target.content);
    var body := Quoted(target.content) + ("\n\n" + TrimJs(message));
    assert body[0] == '>';
    BodyBack(target.content, message);
    ParseEnvelope(target, uri, body);
  }

  lemma NoneBeforeFirst(content: string, p: string, start: nat, from: nat)
    requires p != "" && start <= from && IndexFrom(content, p, start) >= 0
    ensures !Contains(Slice(content, from, IndexFrom(content, p, start)), p)
  {
    var end := IndexFrom(content, p, start);
    var inner := Slice(content, from, end);
    var k := IndexOf(inner, p);
    if k >= 0 {
      OccursInWhole(content, p, from, end, k);
    }
  }

  /** What stands between the ends of a marker does not hold the closing end. */
  lemma MarkerInner(content: string, opening: string, closing: string, trim: string -> string)
    requires closing != "" && SplitMarker(content, opening, closing, trim).Some?
    requires forall s :: !Contains(s, closing) ==> !Contains(trim(s), closing)
    ensures !Contains(SplitMarker(content, opening, closing, trim).value.0, closing)
  {
    var start := IndexOf(content, opening);
    NoneBeforeFirst(content, closing, start, start + |opening|);
  }

  lemma BeforeBar(payload: string)
    ensures var bar := IndexOf(payload, "|");
            if bar < 0 then '|' !in payload else '|' !in payload[..bar]
  {
    forall i | 0 <= i < |payload| && payload[i] == '|'
      ensures OccursAt(payload, "|", i)
    {}
  }

  lemma PayloadId(payload: string, uri: UriCodec)
    requires !Contains(payload, REPLY_END)
    ensures var id := ParsePayload(payload, uri, TrimJs).0;
            id == "" || CarriedId(id)
  {
    var bar := IndexOf(payload, "|");
    var raw := if bar < 0 then payload else payload[..bar];
    BeforeBar(payload);
    PrefixOf(payload, REPLY_END, |raw|);
    assert raw == payload[..|raw|];
    TrimLacks(raw, REPLY_END);
    TrimLacksChar(raw, '|');
  }

  lemma PrefixOf(s: string, p: string, n: nat)
    requires n <= |s| && !Contains(s, p)
    ensures !Contains(s[..n], p)
  {
    SliceLacks(s, p, 0, n);
    assert s[0..n] == s[..n];
  }

  /** Whatever text is read, the id found is one the marker can carry, and quote and text
      are trimmed. */
  lemma ReadIsCarried(content: string, uri: UriCodec)
    requires ParseReply(content, uri).Some?
    ensures var p := ParseReply(content, uri).value;
            && CarriedId(p.target.messageId) && p.target.content == p.quote
            && Trimmed(p.quote, IsJsSpace) && Trimmed(p.text, IsJsSpace)
  {
    forall s | !Contains(s, REPLY_END)
      ensures !Contains(TrimJs(s), REPLY_END)
    {
      TrimLacks(s, REPLY_END);
    }
    MarkerInner(content, REPLY_BEGIN, REPLY_END, TrimJs);
    PayloadId(SplitMarker(content, REPLY_BEGIN, REPLY_END, TrimJs).value.0, uri);
  }

  /** The round trip holds exactly for the ids the marker can carry. */
  lemma ReplyBackExactly(message: string, target: ReplyTarget, uri: UriCodec)
    requires Lawful(uri)
    ensures ParseReply(FormatReply(message, target, uri), uri) == Some(Sent(message, target))
        <==> CarriedId(target.messageId)
  {
    var read := ParseReply(FormatReply(message, target, uri), uri);
    if CarriedId(target.messageId) {
      ReplyBack(message, target, uri);
    } else if read.Some? {
      ReadIsCarried(FormatReply(message, target, uri), uri);
    }
  }

  lemma FormatTruncated(message: string, target: ReplyTarget, uri: UriCodec)
    ensures var p := Sent(message, target);
            FormatReply(p.text, p.target, uri) == FormatReply(message, target, uri)
  {
    TruncateIdempotent(target.content);
    TrimTrimmed(TrimJs(message));
  }

  /** Reading a sent reply and formatting it again gives the same text. */
  lemma ReformatSame(message: string, target: ReplyTarget, uri: UriCodec)
    requires Lawful(uri) && CarriedId(target.messageId)
    ensures var read := ParseReply(FormatReply(message, target, uri), uri);
            read.Some? && FormatReply(read.value.text, read.value.target, uri) == FormatReply(message, target, uri)
  {
    ReplyBack(message, target, uri);
    FormatTruncated(message, target, uri);
  }

  /** Editing and sending again whatever was read as a reply loses at most the end of an
      overlong quote. */
  lemma ReadAgain(content: string, uri: UriCodec)
    requires Lawful(uri) && ParseReply(content, uri).Some?
    ensures var p := ParseReply(content, uri).value;
            var again := ParseReply(FormatReply(p.text, p.target, uri), uri);
            && again == Some(ParsedReply(p.target.(content := Truncate(p.quote)), Truncate(p.quote), p.text))
            && (|p.quote| <= MAX_REPLY_QUOTE_CHARS ==> again == Some(p))
  {
    var p := ParseReply(content, uri).value;
    ReadIsCarried(content, uri);
    ReplyBack(p.text, p.target, uri);
    TrimTrimmed(p.text);
    TrimTrimmed(p.quote);
  }

  // ---------- blank replies ----------

  lemma FormattedEnds(message: string, target: ReplyTarget, uri: UriCodec)
    ensures var head := Envelope(target, uri, Quoted(target.content));
            && FormatReply(message, target, uri) == head + ("\n\n" + TrimJs(message))
            && Trimmed(head, IsJsSpace) && head != ""
  {
    QuotedTrimmed(target.content);
    EnvelopeTrimmed(target, uri, Quoted(target.content));
    EnvelopeAppend(target, uri, Quoted(target.content), "\n\n" + TrimJs(message));
  }

  lemma EnvelopeTrimmed(target: ReplyTarget, uri: UriCodec, body: string)
    requires body != "" && Trimmed(body, IsJsSpace)
    ensures Envelope(target, uri, body) != "" && Trimmed(Envelope(target, uri, body), IsJsSpace)
  {
    var init, last := body[..|body| - 1], body[|body| - 1];
    assert body == init + [last];
    EnvelopeFirst(target, uri, body);
    EnvelopeLast(target, uri, init, last);
    TrimmedEnds(Envelope(target, uri, body), last);
  }

  lemma EnvelopeAppend(target: ReplyTarget, uri: UriCodec, body: string, more: string)
    ensures Envelope(target, uri, body + more) == Envelope(target, uri, body) + more
  {
    PrefaceAppend(body, more);
    MoveOut(REPLY_BEGIN, Payload(target, uri), " ", REPLY_END, Preface(body), more);
  }

  lemma PrefaceAppend(body: string, more: string)
    ensures Preface(body + more) == Preface(body) + more
  {
    MoveOut("\n", INSTRUCTION_BEGIN + InstructionWords(), INSTRUCTION_END, "\n", body, more);
  }

  lemma MoveOut(a: string, b: string, c: string, d: string, e: string, f: string)
    ensures a + (b + (c + (d + (e + f)))) == a + (b + (c + (d + e))) + f
  {
    assert d + (e + f) == d + e + f;
    assert c + (d + e + f) == c + (d + e) + f;
    assert b + (c + (d + e) + f) == b + (c + (d + e)) + f;
  }

  lemma EnvelopeLast(target: ReplyTarget, uri: UriCodec, init: string, last: char)
    ensures var s := Envelope(target, uri, init + [last]);
            s != "" && s[|s| - 1] == last
  {
    EnvelopeAppend(target, uri, init, [last]);
    AppendLast(Envelope(target, uri, init), last);
  }

  lemma TrimmedEnds(s: string, last: char)
    requires s != "" && s[0] == '<' && s[|s| - 1] == last && !IsJsSpace(last)
    ensures Trimmed(s, IsJsSpace)
  {}

  lemma AppendLast(s: string, c: char)
    ensures (s + [c])[|s + [c]| - 1] == c
  {}

  lemma EnvelopeFirst(target: ReplyTarget, uri: UriCodec, body: string)
    ensures Envelope(target, uri, body) != "" && Envelope(target, uri, body)[0] == '<'
  {
    StartsLiterally(Payload(target, uri) + (" " + (REPLY_END + Preface(body))));
  }

  lemma StartsLiterally(rest: string)
    ensures REPLY_BEGIN + rest != "" && (REPLY_BEGIN + rest)[0] == '<'
  {}

  /** Trimming a formatted reply changes it only when its text is blank: then the divider goes. */
  lemma TrimFormatted(message: string, target: ReplyTarget, uri: UriCodec)
    ensures TrimJs(FormatReply(message, target, uri))
         == if TrimJs(message) == "" then Envelope(target, uri, Quoted(target.content))
            else FormatReply(message, target, uri)
  {
    FormattedEnds(message, target, uri);
    TrimDivided(Envelope(target, uri, Quoted(target.content)), TrimJs(message));
  }

  lemma TrimDivided(head: string, text: string)
    requires Trimmed(head, IsJsSpace) && head != "" && Trimmed(text, IsJsSpace)
    ensures TrimJs(head + ("\n\n" + text)) == if text == "" then head else head + ("\n\n" + text)
  {
    if text == "" {
      assert "\n\n" + text == "\n\n";
      TrimOverEnd(head, "\n\n", IsJsSpace);
    } else {
      EndsTrimmed(head, "\n\n", text);
      TrimTrimmed(head + ("\n\n" + text));
    }
  }

  lemma EndsTrimmed(a: string, b: string, c: string)
    requires Trimmed(a, IsJsSpace) && a != "" && Trimmed(c, IsJsSpace) && c != ""
    ensures Trimmed(a + (b + c), IsJsSpace)
  {
    var s := a + (b + c);
    assert s[0] == a[0] && s[|s| - 1] == c[|c| - 1];
  }

  /** A trimmed reply is still read as the reply it was exactly when its text is not blank. */
  lemma TrimmedReplyBack(message: string, target: ReplyTarget, uri: UriCodec)
    requires Lawful(uri) && CarriedId(target.messageId)
    ensures ParseReply(TrimJs(FormatReply(message, target, uri)), uri)
         == if TrimJs(message) == "" then None else Some(Sent(message, target))
  {
    TrimFormatted(message, target, uri);
    if TrimJs(message) == "" {
      QuotedTrimmed(target.content);
      BodyLost(target.content);
      ParseEnvelope(target, uri, Quoted(target.content));
    } else {
      ReplyBack(message, target, uri);
    }
  }

  // ---------- how much of a quote is kept ----------

  /** A quote of up to 12,000 characters is kept whole; of a longer one the first 12,000 are, followed
      by an ellipsis on a line of its own. */
  lemma TruncateExactly(content: string)
    ensures var text, kept := TrimJs(content), Truncate(content);
            if |text| <= 12000 then kept == text
            else |kept| == 12002 && kept[..12000] == text[..12000] && kept[12000..] == "\n\U{2026}"
  {
    CutParts(TrimJs(content), 12000, "\n\U{2026}");
  }

  lemma CutParts(s: string, max: nat, mark: string)
    ensures var kept := Cut(s, max, mark);
            if |s| <= max then kept == s
            else |kept| == max + |mark| && kept[..max] == s[..max] && kept[max..] == mark
  {}

  // ---------- replies written without date or instruction ----------

  /** The marker's payload with or without a date. */
  function PayloadText(id: string, date: Option<string>): (r: string) {
    if date.Some? then id + ("|" + date.value) else id
  }

  /** The date as it is read: empty if it is missing or cannot be decoded. */
  function DateRead(date: Option<string>, uri: UriCodec): (r: string) {
    if date.Some? && uri.decode(date.value).Some? then uri.decode(date.value).value else ""
  }

  predicate PlainPart(s: string) {
    Trimmed(s, IsJsSpace) && '>' !in s
  }

  lemma PayloadTextTrimmed(id: string, date: Option<string>)
    requires id != "" && PlainPart(id) && (date.Some? ==> PlainPart(date.value))
    ensures TrimJs(PayloadText(id, date) + " ") == PayloadText(id, date)
    ensures '>' !in PayloadText(id, date)
  {
    if date.Some? {
      PayloadTrimmed(id, date.value);
    } else {
      TrimOverEnd(id, " ", IsJsSpace);
    }
  }

  lemma PayloadTextRead(id: string, date: Option<string>, uri: UriCodec, trim: string -> string)
    requires '|' !in id && trim(id) == id && (date.Some? ==> trim(date.value) == date.value)
    ensures ParsePayload(PayloadText(id, date), uri, trim) == (id, DateRead(date, uri))
  {
    if date.Some? {
      SeparatorAt(id, date.value);
      PayloadShape(id, date.value);
    } else {
      CharLacks(id, "|", 0);
    }
  }

  lemma PlainMarker(payload: string, rest: string)
    requires '>' !in payload
    ensures SplitMarker(REPLY_BEGIN + (payload + " ") + REPLY_END + rest, REPLY_BEGIN, REPLY_END, TrimJs)
         == Some((TrimJs(payload + " "), rest))
  {
    ReplyMarkers();
    FindFirst(REPLY_BEGIN + (payload + " "), REPLY_END, rest);
    Associative(REPLY_BEGIN + (payload + " "), REPLY_END, rest);
    MarkerParts(REPLY_BEGIN, payload + " ", REPLY_END, rest, TrimJs);
  }

  /** A marker and what follows it on the next line. */
  function BareEnvelope(id: string, date: Option<string>, body: string): (r: string) {
    REPLY_BEGIN + (PayloadText(id, date) + " ") + REPLY_END + ("\n" + body)
  }

  lemma BareMarker(id: string, date: Option<string>, body: string)
    requires id != "" && PlainPart(id) && (date.Some? ==> PlainPart(date.value))
    ensures SplitMarker(BareEnvelope(id, date, body), REPLY_BEGIN, REPLY_END, TrimJs)
         == Some((PayloadText(id, date), "\n" + body))
  {
    PayloadTextTrimmed(id, date);
    PlainMarker(PayloadText(id, date), "\n" + body);
  }

  lemma BarePayload(id: string, date: Option<string>, uri: UriCodec)
    requires id != "" && PlainPart(id) && '|' !in id && (date.Some? ==> PlainPart(date.value))
    ensures PayloadReader(uri)(PayloadText(id, date)) == (id, DateRead(date, uri))
  {
    TrimTrimmed(id);
    if date.Some? { TrimTrimmed(date.value); }
    PayloadTextRead(id, date, uri, TrimJs);
  }

  lemma NothingSkipped(body: string)
    requires body != "" && !IsJsSpace(body[0]) && body[0] != '<'
    ensures ReadBody("\n" + body) == ParseBody(body)
  {
    AfterLineFeed(body);
    assert INSTRUCTION_BEGIN[0] == '<';
    assert |body| >= |INSTRUCTION_BEGIN| ==> body[..|INSTRUCTION_BEGIN|][0] == body[0];
  }

  lemma BareEnvelopeRead(id: string, date: Option<string>, body: string, uri: UriCodec)
    requires id != "" && PlainPart(id) && '|' !in id && (date.Some? ==> PlainPart(date.value))
    requires body != "" && !IsJsSpace(body[0]) && body[0] != '<'
    ensures ParseReply(BareEnvelope(id, date, body), uri)
         == if ParseBody(body).None? then None else Some(Read(id, DateRead(date, uri), ParseBody(body).value))
  {
    BareMarker(id, date, body);
    BarePayload(id, date, uri);
    NothingSkipped(body);
    Assembled(PayloadText(id, date), "\n" + body, PayloadReader(uri), ReadBody);
  }

  /** A reply without the instruction, and with or without a readable date, is read as well: the date
      is empty when it is missing or cannot be decoded. */
  lemma BareReplyRead(id: string, date: Option<string>, content: string, message: string, uri: UriCodec)
    requires id != "" && PlainPart(id) && '|' !in id && (date.Some? ==> PlainPart(date.value))
    ensures ParseReply(BareEnvelope(id, date, Quoted(content) + ("\n\n" + TrimJs(message))), uri)
         == Some(Read(id, DateRead(date, uri), (Truncate(content), TrimJs(message))))
  {
    var body := Quoted(content) + ("\n\n" + TrimJs(message));
    QuotedTrimmed(content);
    assert body[0] == '>';
    BodyBack(content, message);
    BareEnvelopeRead(id, date, body, uri);
  }

  lemma TrimKeepsFirst(s: string)
    requires s != "" && !IsJsSpace(s[0])
    ensures TrimJs(s) != "" && TrimJs(s)[0] == s[0]
  {
    TrimEndKeepsFirst(s, IsJsSpace);
    assert TrimStart(s, IsJsSpace) == s;
  }

  lemma NotQuoted(block: string)
    requires block != "" && block[0] != '>'
    ensures !StartsWith(block, ">")
  {
    assert block[..1][0] == block[0];
  }

  lemma NoBodyAt(body: string, divider: nat)
    requires IndexOf(body, "\n\n") == divider && !StartsWith(TrimJs(body[..divider]), ">")
    ensures ParseBody(body).None?
  {}

  lemma NoQuoteNoBody(body: string)
    requires body != "" && !IsJsSpace(body[0]) && body[0] != '>'
    ensures ParseBody(body).None?
  {
    var divider := IndexOf(body, "\n\n");
    if divider >= 0 {
      OccursCharAt(body, "\n\n", divider, 0);
      assert IsJsSpace('\n');
      TrimKeepsFirst(body[..divider]);
      NotQuoted(TrimJs(body[..divider]));
      NoBodyAt(body, divider);
    }
  }

  /** A marker whose text does not begin with a quote is no reply. */
  lemma UnquotedIsNoReply(id: string, date: Option<string>, body: string, uri: UriCodec)
    requires id != "" && PlainPart(id) && '|' !in id && (date.Some? ==> PlainPart(date.value))
    requires body != "" && !IsJsSpace(body[0]) && body[0] != '>' && body[0] != '<'
    ensures ParseReply(BareEnvelope(id, date, body), uri).None?
  {
    NoQuoteNoBody(body);
    BareEnvelopeRead(id, date, body, uri);
  }

  // ---------- text before the marker ----------

  lemma {:induction false} IndexAfter(before: string, s: string, p: string, from: nat)
    requires from <= |s|
    ensures IndexFrom(before + s, p, |before| + from)
         == if IndexFrom(s, p, from) < 0 then -1 else |before| + IndexFrom(s, p, from)
    decreases |s| - from
  {
    assert from + |p| <= |s| ==> (before + s)[|before| + from..|before| + from + |p|] == s[from..from + |p|];
    assert OccursAt(before + s, p, |before| + from) <==> OccursAt(s, p, from);
    if from + |p| <= |s| && !OccursAt(s, p, from) && from < |s| {
      IndexAfter(before, s, p, from + 1);
    }
  }

  lemma MarkerAfter(before: string, s: string, opening: string, closing: string, trim: string -> string)
    requires IndexOf(s, opening) == 0 && IndexOf(before + s, opening) == |before|
    ensures SplitMarker(before + s, opening, closing, trim) == SplitMarker(s, opening, closing, trim)
  {
    var end := IndexFrom(s, closing, 0);
    IndexAfter(before, s, closing, 0);
    SplitAt(s, opening, closing, trim, 0, end);
    ShiftedParts(before, s, |opening|, end, |closing|);
    SameSplit(before + s, s, opening, closing, trim, |before|, end);
  }

  lemma ShiftedParts(before: string, s: string, from: nat, end: int, n: nat)
    requires end >= 0 ==> end + n <= |s|
    ensures end >= 0 ==> |before| + end + n <= |before + s|
    ensures end >= 0 ==> Slice(before + s, |before| + from, |before| + end) == Slice(s, from, end)
    ensures end >= 0 ==> (before + s)[|before| + end + n..] == s[end + n..]
  {
    if end >= 0 { SlicesAfter(before, s, from, end, end + n); }
  }

  lemma SameSplit(all: string, s: string, opening: string, closing: string, trim: string -> string, shift: nat,
                  end: int)
    requires IndexOf(s, opening) == 0 && IndexFrom(s, closing, 0) == end
    requires IndexOf(all, opening) == shift && IndexFrom(all, closing, shift) == if end < 0 then -1 else shift + end
    requires end >= 0 ==> end + |closing| <= |s| && shift + end + |closing| <= |all|
    requires end >= 0 ==> Slice(all, shift + |opening|, shift + end) == Slice(s, |opening|, end)
    requires end >= 0 ==> all[shift + end + |closing|..] == s[end + |closing|..]
    ensures SplitMarker(all, opening, closing, trim) == SplitMarker(s, opening, closing, trim)
  {
    SplitAt(s, opening, closing, trim, 0, end);
    SplitAt(all, opening, closing, trim, shift, if end < 0 then -1 else shift + end);
  }

  lemma SplitAt(content: string, opening: string, closing: string, trim: string -> string, start: nat, end: int)
    requires IndexOf(content, opening) == start && IndexFrom(content, closing, start) == end
    ensures end >= 0 ==> end + |closing| <= |content|
    ensures SplitMarker(content, opening, closing, trim)
         == if end < 0 then None
            else Some((trim(Slice(content, start + |opening|, end)), content[end + |closing|..]))
  {}

  lemma SlicesAfter(before: string, s: string, from: nat, to: nat, next: nat)
    requires to <= |s| && next <= |s|
    ensures Slice(before + s, |before| + from, |before| + to) == Slice(s, from, to)
    ensures (before + s)[|before| + next..] == s[next..]
  {
    if from <= to {
      assert (before + s)[|before| + from..|before| + to] == s[from..to];
    }
  }

  lemma BeginEndsOnce()
    ensures EndsOnce(REPLY_BEGIN) && '\n' !in REPLY_BEGIN
  {}

  /** Lines before the marker are passed over. */
  lemma TextBeforeIgnored(before: string, rest: string, uri: UriCodec)
    requires !Contains(before, REPLY_BEGIN) && before != "" && before[|before| - 1] == '\n'
    ensures ParseReply(before + (REPLY_BEGIN + rest), uri) == ParseReply(REPLY_BEGIN + rest, uri)
  {
    BeginEndsOnce();
    FindMark(before, "", REPLY_BEGIN, rest, 0);
    FindFirst("", REPLY_BEGIN, rest);
    assert "" + (REPLY_BEGIN + rest) == REPLY_BEGIN + rest;
    MarkerAfter(before, REPLY_BEGIN + rest, REPLY_BEGIN, REPLY_END, TrimJs);
  }
}

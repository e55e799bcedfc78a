/** User messages as they are stored: trimmed text, then the attached images in a marker; and
    how text, images and reply target are read back. */
module StoredMessages {
  import opened Text
  import opened Seqs
  import opened Wrappers
  import opened Markers
  import opened ReplyCodec

  datatype Image = Image(mime: string, data: string)

  datatype Stored = Stored(text: string, images: seq<Image>, reply: Option<ParsedReply>)

  // ---------- writing ----------

  function Item(image: Image): (r: string) {
    image.mime + ("|" + image.data)
  }

  function ImagePayload(images: seq<Image>): (r: string) {
    Join(Map(Item, images), ';')
  }

  function Enclosed(opening: string, payload: string, closing: string): (r: string) {
    opening + (":" + (payload + " ") + closing)
  }

  function ImageBlock(images: seq<Image>): (r: string) {
    Enclosed(IMAGE_BEGIN, ImagePayload(images), IMAGE_END)
  }

  function EncodeLocal(message: string, images: seq<Image>): (r: string) {
    var text := TrimJs(message);
    if images == [] then text else Divided(text) + ImageBlock(images)
  }

  function Divided(text: string): (r: string) {
    if text == "" then "" else text + "\n\n"
  }

  // ---------- reading ----------

  function Canonical(mime: string): (r: string) {
    if mime == "image/jpg" then "image/jpeg" else mime
  }

  /** One entry of the payload, read as an image or passed over. */
  function ParseItem(item: string, lower: string -> string, trim: string -> string): (r: seq<Image>) {
    var parts := Split(item, '|');
    if parts[0] == "" || |parts| < 2 || parts[1] == "" then []
    else
      var mime, data := lower(trim(parts[0])), trim(parts[1]);
      if StartsWith(mime, "image/") && data != "" then [Image(Canonical(mime), data)] else []
  }

  function ItemReader(lower: string -> string, trim: string -> string): (r: string -> seq<Image>) {
    (item: string) => ParseItem(item, lower, trim)
  }

  function DropColon(s: string): (r: string) {
    if s != "" && s[0] == ':' then TrimStartJs(s[1..]) else s
  }

  function PayloadOf(block: string, opening: string, closing: string): (r: string) {
    TrimJs(DropColon(ReplaceFirst(ReplaceFirst(block, opening), closing)))
  }

  /** Where the first block begins and ends. */
  function FindBlock(content: string, opening: string, closing: string): (r: Option<(nat, nat)>)
    ensures r.Some? ==> r.value.0 + |opening| <= |content| && r.value.0 <= r.value.1 <= |content|
  {
    var start := IndexOf(content, opening);
    if start < 0 then None
    else
      var end := IndexFrom(content, closing, start);
      if end < 0 then None else Some((start, end + |closing|))
  }

  function WithoutBlock(content: string, opening: string, closing: string, trim: string -> string): (r: string) {
    var block := FindBlock(content, opening, closing);
    if block.None? then content else trim(content[..block.value.0] + content[block.value.1..])
  }

  function BlockText(content: string, opening: string, closing: string): (r: Option<string>) {
    var block := FindBlock(content, opening, closing);
    if block.None? then None else Some(content[block.value.0..block.value.1])
  }

  function BlockPayload(content: string, opening: string, closing: string): (r: Option<string>) {
    var block := BlockText(content, opening, closing);
    if block.None? then None else Some(PayloadOf(block.value, opening, closing))
  }

  function ImagesOf(payload: Option<string>, lower: string -> string, trim: string -> string): (r: seq<Image>) {
    if payload.None? then [] else FlatMap(ItemReader(lower, trim), Split(payload.value, ';'))
  }

  function Assemble(text: string, images: seq<Image>, reply: Option<ParsedReply>): (r: Stored) {
    Stored(if reply.Some? then reply.value.text else text, images, reply)
  }

  function ParseStored(content: string, uri: UriCodec, lower: string -> string): (r: Stored) {
    var text := WithoutBlock(content, IMAGE_BEGIN, IMAGE_END, TrimJs);
    Assemble(text, ImagesOf(BlockPayload(content, IMAGE_BEGIN, IMAGE_END), lower, TrimJs), ParseReply(text, uri))
  }

  /** The reader as it works: it cuts the block out and collects its images one payload entry
      at a time. */
  method ParseStoredUserMessage(content: string, uri: UriCodec, lower: string -> string) returns (stored: Stored)
    ensures stored == ParseStored(content, uri, lower)
  {
    var text, block := TakeBlock(content, IMAGE_BEGIN, IMAGE_END, TrimJs);
    var images: seq<Image> := [];
    if block.Some? {
      images := CollectImages(PayloadOf(block.value, IMAGE_BEGIN, IMAGE_END), lower, TrimJs);
    }
    stored := Assemble(text, images, ParseReply(text, uri));
  }

  method TakeBlock(content: string, opening: string, closing: string, trim: string -> string)
    returns (text: string, block: Option<string>)
    ensures text == WithoutBlock(content, opening, closing, trim)
    ensures block == BlockText(content, opening, closing)
  {
    var start := IndexOf(content, opening);
    text, block := content, None;
    if start >= 0 {
      var endRel := IndexFrom(content, closing, start);
      if endRel >= 0 {
        var end := endRel + |closing|;
        text := trim(content[..start] + content[end..]);
        block := Some(content[start..end]);
      }
    }
  }

  method CollectImages(payload: string, lower: string -> string, trim: string -> string) returns (images: seq<Image>)
    ensures images == FlatMap(ItemReader(lower, trim), Split(payload, ';'))
  {
    images := [];
    var items := Split(payload, ';');
    ghost var read := ItemReader(lower, trim);
    for i := 0 to |items|
      invariant images + FlatMap(read, items[i..]) == FlatMap(read, items)
    {
      assert items[i..][1..] == items[i + 1..];
      ghost var before := images;
      var parts := Split(items[i], '|');
      if parts[0] != "" && |parts| >= 2 && parts[1] != "" {
        var mime := lower(trim(parts[0]));
        var data := trim(parts[1]);
        if StartsWith(mime, "image/") && data != "" {
          images := images + [Image(Canonical(mime), data)];
        }
      }
      assert images == before + read(items[i]);
      Associative(before, read(items[i]), FlatMap(read, items[i + 1..]));
    }
  }

  // ---------- the payload ----------

  /** Neither white space nor a character that ends an entry, a field or the marker. */
  ghost predicate PlainField(s: string) {
    s != "" && forall c :: c in s ==> c != '>' && c != ';' && c != '|' && !IsJsSpace(c)
  }

  /** Images as the composer attaches them. */
  ghost predicate CarriedImage(image: Image, lower: string -> string) {
    PlainField(image.mime) && PlainField(image.data) && StartsWith(lower(image.mime), "image/")
  }

  function Normalized(lower: string -> string): (r: Image -> Image) {
    (image: Image) => Image(Canonical(lower(image.mime)), image.data)
  }

  ghost predicate AllCarried(images: seq<Image>, lower: string -> string) {
    forall i :: 0 <= i < |images| ==> CarriedImage(images[i], lower)
  }

  lemma PlainTrim(s: string)
    requires PlainField(s)
    ensures TrimJs(s) == s
  {
    TrimTrimmed(s);
  }

  lemma FieldsBack(mime: string, data: string)
    requires '|' !in mime && '|' !in data
    ensures Split(mime + ("|" + data), '|') == [mime, data]
  {
    SplitPrefix(mime, data, '|');
    SplitPlain(data, '|');
    BarAsChar(mime, data);
  }

  lemma BarAsChar(mime: string, data: string)
    ensures mime + ("|" + data) == mime + ['|'] + data
  {}

  lemma ItemBack(image: Image, lower: string -> string)
    requires CarriedImage(image, lower)
    ensures ItemReader(lower, TrimJs)(Item(image)) == [Normalized(lower)(image)]
  {
    FieldsBack(image.mime, image.data);
    PlainTrim(image.mime);
    PlainTrim(image.data);
  }

  lemma {:induction false} ItemsBack(images: seq<Image>, lower: string -> string)
    requires AllCarried(images, lower)
    ensures FlatMap(ItemReader(lower, TrimJs), Map(Item, images)) == Map(Normalized(lower), images)
  {
    if images != [] {
      ItemBack(images[0], lower);
      ItemsBack(images[1..], lower);
      MapCons(Item, images);
      MapCons(Normalized(lower), images);
    }
  }

  lemma MapCons<T, U>(f: T -> U, s: seq<T>)
    requires s != []
    ensures Map(f, s) == [f(s[0])] + Map(f, s[1..])
  {}

  /** Free of white space and of the marker's last character. */
  ghost predicate Compact(s: string) {
    forall c :: c in s ==> c != '>' && !IsJsSpace(c)
  }

  lemma ItemCompact(image: Image, lower: string -> string)
    requires CarriedImage(image, lower)
    ensures Compact(Item(image)) && ';' !in Item(image) && Item(image) != ""
  {}

  lemma {:induction false} JoinCompact(parts: seq<string>)
    requires parts != [] && forall i :: 0 <= i < |parts| ==> Compact(parts[i]) && parts[i] != ""
    ensures Compact(Join(parts, ';')) && Join(parts, ';') != ""
  {
    if |parts| > 1 {
      JoinCompact(parts[1..]);
      assert Compact(parts[0]);
    }
  }

  lemma PayloadBackImages(images: seq<Image>, lower: string -> string)
    requires images != [] && AllCarried(images, lower)
    ensures Compact(ImagePayload(images)) && ImagePayload(images) != ""
    ensures Split(ImagePayload(images), ';') == Map(Item, images)
  {
    var items := Map(Item, images);
    forall i | 0 <= i < |items|
      ensures Compact(items[i]) && ';' !in items[i] && items[i] != ""
    {
      ItemCompact(images[i], lower);
    }
    JoinCompact(items);
    SplitJoin(items, ';');
  }

  // ---------- the block ----------

  lemma ReplaceHead(head: string, rest: string)
    ensures ReplaceFirst(head + rest, head) == rest
  {
    var s := head + rest;
    assert s[0..|head|] == head;
    IndexFromIs(s, head, 0, 0);
    assert s[..0] + s[0 + |head|..] == rest;
  }

  lemma ReplaceTail(gap: string, p: string)
    requires EndsOnce(p) && p[|p| - 1] !in gap
    ensures ReplaceFirst(gap + p, p) == gap
  {
    FindFirst(gap, p, "");
    assert gap + (p + "") == gap + p;
    assert (gap + p)[..|gap|] + (gap + p)[|gap| + |p|..] == gap;
  }

  lemma ColonDropped(payload: string)
    requires Compact(payload) && payload != ""
    ensures TrimJs(DropColon(":" + (payload + " "))) == payload
  {
    var s := ":" + (payload + " ");
    assert s[1..] == payload + " ";
    TrimStartOver("", payload + " ", IsJsSpace);
    assert "" + (payload + " ") == payload + " ";
    TrimOverEnd(payload, " ", IsJsSpace);
  }

  lemma EnclosedPayload(opening: string, payload: string, closing: string)
    requires EndsOnce(closing) && closing[|closing| - 1] == '>' && Compact(payload) && payload != ""
    ensures PayloadOf(Enclosed(opening, payload, closing), opening, closing) == payload
  {
    ReplaceHead(opening, ":" + (payload + " ") + closing);
    ReplaceTail(":" + (payload + " "), closing);
    ColonDropped(payload);
  }

  lemma Nested(a: string, b: string, c: string, d: string, e: string)
    ensures a + (b + (c + d)) + e == a + (b + (c + (d + e)))
    ensures a + (b + (c + (d + e))) == a + (b + c + (d + e))
  {
    assert b + (c + (d + e)) == b + c + (d + e);
    assert (b + (c + d)) + e == b + (c + (d + e));
  }

  /** After text without the opening, the block is found where it was written. */
  lemma BlockFound(before: string, opening: string, inner: string, closing: string, after: string)
    requires EndsOnce(opening) && EndsOnce(closing) && !Contains(before, opening)
    requires before == "" || before[|before| - 1] !in opening
    requires closing[|closing| - 1] !in opening && closing[|closing| - 1] !in inner
    ensures FindBlock(before + (opening + (inner + closing)) + after, opening, closing)
         == Some((|before|, |before| + |opening| + |inner| + |closing|))
  {
    Nested(before, opening, inner, closing, after);
    OpeningAt(before, opening, inner + (closing + after));
    FindMark(before, opening + inner, closing, after, |before|);
  }

  lemma OpeningAt(before: string, opening: string, rest: string)
    requires EndsOnce(opening) && !Contains(before, opening)
    requires before == "" || before[|before| - 1] !in opening
    ensures IndexOf(before + (opening + rest), opening) == |before|
  {
    FindMark(before, "", opening, rest, 0);
    assert "" + (opening + rest) == opening + rest;
  }

  /** Cutting the block out leaves what stands around it. */
  lemma CutOut(before: string, block: string, after: string, opening: string, closing: string, trim: string -> string)
    requires FindBlock(before + block + after, opening, closing) == Some((|before|, |before| + |block|))
    ensures WithoutBlock(before + block + after, opening, closing, trim) == trim(before + after)
    ensures BlockPayload(before + block + after, opening, closing) == Some(PayloadOf(block, opening, closing))
  {
    var content := before + block + after;
    assert content[..|before|] + content[|before| + |block|..] == before + after;
    assert content[|before|..|before| + |block|] == block;
  }

  lemma EnclosedInside(before: string, opening: string, payload: string, closing: string, after: string,
                       trim: string -> string)
    requires EndsOnce(opening) && EndsOnce(closing) && !Contains(before, opening)
    requires before == "" || before[|before| - 1] !in opening
    requires closing[|closing| - 1] == '>' && '>' !in opening && Compact(payload) && payload != ""
    ensures var content := before + Enclosed(opening, payload, closing) + after;
            && WithoutBlock(content, opening, closing, trim) == trim(before + after)
            && BlockPayload(content, opening, closing) == Some(payload)
  {
    BlockFound(before, opening, ":" + (payload + " "), closing, after);
    CutOut(before, Enclosed(opening, payload, closing), after, opening, closing, trim);
    EnclosedPayload(opening, payload, closing);
  }

  lemma EnclosedBack(before: string, opening: string, payload: string, closing: string, trim: string -> string)
    requires EndsOnce(opening) && EndsOnce(closing) && !Contains(before, opening)
    requires before == "" || before[|before| - 1] !in opening
    requires closing[|closing| - 1] == '>' && '>' !in opening && Compact(payload) && payload != ""
    ensures var content := before + Enclosed(opening, payload, closing);
            && WithoutBlock(content, opening, closing, trim) == trim(before)
            && BlockPayload(content, opening, closing) == Some(payload)
  {
    var content := before + Enclosed(opening, payload, closing);
    EnclosedInside(before, opening, payload, closing, "", trim);
    assert content + "" == content && before + "" == before;
  }

  /** A block anywhere in a text: the text around it is joined and trimmed, and its images are read. */
  lemma ImagesInside(before: string, images: seq<Image>, after: string, lower: string -> string)
    requires images != [] && AllCarried(images, lower) && !Contains(before, IMAGE_BEGIN)
    requires before == "" || before[|before| - 1] == '\n'
    ensures var content := before + ImageBlock(images) + after;
            && WithoutBlock(content, IMAGE_BEGIN, IMAGE_END, TrimJs) == TrimJs(before + after)
            && ImagesOf(BlockPayload(content, IMAGE_BEGIN, IMAGE_END), lower, TrimJs) == Map(Normalized(lower), images)
  {
    ImageMarkers();
    PayloadBackImages(images, lower);
    EnclosedInside(before, IMAGE_BEGIN, ImagePayload(images), IMAGE_END, after, TrimJs);
    ItemsBack(images, lower);
  }

  lemma ImageMarkers()
    ensures EndsOnce(IMAGE_BEGIN) && EndsOnce(IMAGE_END) && IMAGE_END[|IMAGE_END| - 1] == '>'
    ensures '>' !in IMAGE_BEGIN && '\n' !in IMAGE_BEGIN && IMAGE_BEGIN[0] == '<' && '\n' !in IMAGE_END
  {}

  lemma DividedLacks(text: string, p: string)
    requires p != "" && '\n' !in p && !Contains(text, p)
    ensures !Contains(Divided(text), p)
    ensures Divided(text) == "" || Divided(text)[|Divided(text)| - 1] !in p
  {
    CharLacks("\n\n", p, 0);
    AppendLacks(text, "\n\n", p);
  }

  lemma DividedTrim(text: string)
    requires Trimmed(text, IsJsSpace)
    ensures TrimJs(Divided(text)) == text
  {
    TrimOverEnd(text, "\n\n", IsJsSpace);
    TrimTrimmed(text);
  }

  lemma EncodedParts(text: string, images: seq<Image>, lower: string -> string)
    requires Trimmed(text, IsJsSpace) && !Contains(text, IMAGE_BEGIN) && images != [] && AllCarried(images, lower)
    ensures var content := Divided(text) + ImageBlock(images);
            && WithoutBlock(content, IMAGE_BEGIN, IMAGE_END, TrimJs) == text
            && BlockPayload(content, IMAGE_BEGIN, IMAGE_END) == Some(ImagePayload(images))
  {
    ImageMarkers();
    PayloadBackImages(images, lower);
    DividedLacks(text, IMAGE_BEGIN);
    EnclosedBack(Divided(text), IMAGE_BEGIN, ImagePayload(images), IMAGE_END, TrimJs);
    DividedTrim(text);
  }

  /** No block, no change. */
  lemma NoBlock(text: string, lower: string -> string)
    requires !Contains(text, IMAGE_BEGIN)
    ensures WithoutBlock(text, IMAGE_BEGIN, IMAGE_END, TrimJs) == text
    ensures ImagesOf(BlockPayload(text, IMAGE_BEGIN, IMAGE_END), lower, TrimJs) == []
  {}

  /** The text and the images of an encoded message, whatever the text says otherwise. */
  lemma ImagesBack(message: string, images: seq<Image>, lower: string -> string)
    requires AllCarried(images, lower) && !Contains(TrimJs(message), IMAGE_BEGIN)
    ensures var content := EncodeLocal(message, images);
            && WithoutBlock(content, IMAGE_BEGIN, IMAGE_END, TrimJs) == TrimJs(message)
            && ImagesOf(BlockPayload(content, IMAGE_BEGIN, IMAGE_END), lower, TrimJs) == Map(Normalized(lower), images)
  {
    var text := TrimJs(message);
    if images == [] {
      NoBlock(text, lower);
    } else {
      EncodedParts(text, images, lower);
      PayloadBackImages(images, lower);
      ItemsBack(images, lower);
    }
  }

  /** Images in the form the composer produces come back as they are. */
  lemma CanonicalKept(images: seq<Image>, lower: string -> string)
    requires forall i :: 0 <= i < |images| ==> lower(images[i].mime) == images[i].mime != "image/jpg"
    ensures Map(Normalized(lower), images) == images
  {
    forall i | 0 <= i < |images|
      ensures Normalized(lower)(images[i]) == images[i]
    {}
  }

  /** A message that is no reply: text and images come back. */
  lemma PlainBack(message: string, images: seq<Image>, uri: UriCodec, lower: string -> string)
    requires AllCarried(images, lower)
    requires !Contains(TrimJs(message), IMAGE_BEGIN) && !Contains(TrimJs(message), REPLY_BEGIN)
    ensures ParseStored(EncodeLocal(message, images), uri, lower)
         == Stored(TrimJs(message), Map(Normalized(lower), images), None)
  {
    ImagesBack(message, images, lower);
    NoReply(TrimJs(message), uri);
  }

  lemma NoReply(text: string, uri: UriCodec)
    requires !Contains(text, REPLY_BEGIN)
    ensures ParseReply(text, uri).None?
  {}

  // ---------- what is read is an image ----------

  /** An image type, not under its second name, and data that is neither empty nor padded. */
  predicate Sound(image: Image) {
    StartsWith(image.mime, "image/") && image.mime != "image/jpg" && image.data != "" && Trimmed(image.data, IsJsSpace)
  }

  lemma ItemSound(item: string, lower: string -> string)
    ensures forall image :: image in ParseItem(item, lower, TrimJs) ==> Sound(image)
  {
    JpegIsImage();
  }

  lemma JpegIsImage()
    ensures StartsWith("image/jpeg", "image/")
  {
    assert "image/jpeg"[..6] == "image/";
  }

  /** Whatever text is read, every image found in it is one. */
  lemma ImagesAreSound(content: string, lower: string -> string, image: Image)
    requires image in ImagesOf(BlockPayload(content, IMAGE_BEGIN, IMAGE_END), lower, TrimJs)
    ensures Sound(image)
  {
    var items := Split(BlockPayload(content, IMAGE_BEGIN, IMAGE_END).value, ';');
    FlatMapMembers(ItemReader(lower, TrimJs), items, image);
    var i :| 0 <= i < |items| && image in ItemReader(lower, TrimJs)(items[i]);
    ItemSound(items[i], lower);
  }

  // ---------- exactly when a text survives ----------

  /** Without attached images a text is kept exactly when it holds no block of its own. */
  lemma NoImagesExactly(message: string)
    ensures WithoutBlock(EncodeLocal(message, []), IMAGE_BEGIN, IMAGE_END, TrimJs) == TrimJs(message)
        <==> FindBlock(TrimJs(message), IMAGE_BEGIN, IMAGE_END).None?
  {
    var text := TrimJs(message);
    ImageMarkers();
    CutIsShorter(text, IMAGE_BEGIN, IMAGE_END, TrimJs);
  }

  lemma CutIsShorter(text: string, opening: string, closing: string, trim: string -> string)
    requires closing != "" && forall s :: |trim(s)| <= |s|
    ensures FindBlock(text, opening, closing).Some? ==> |WithoutBlock(text, opening, closing, trim)| < |text|
  {}

  lemma {:induction false} TrimStartKeeps(pad: string, s: string)
    requires s != "" && !IsJsSpace(s[0])
    ensures |TrimStart(pad + s, IsJsSpace)| >= |s|
  {
    if pad == "" {
      assert pad + s == s;
    } else {
      assert (pad + s)[1..] == pad[1..] + s;
      TrimStartKeeps(pad[1..], s);
    }
  }

  /** Trimming takes nothing from a text that is trimmed itself. */
  lemma TrimKeeps(pad: string, s: string)
    requires s != "" && Trimmed(s, IsJsSpace)
    ensures |TrimJs(pad + s)| >= |s|
  {
    TrimStartKeeps(pad, s);
    var t := TrimStart(pad + s, IsJsSpace);
    assert t[|t| - 1] == s[|s| - 1];
  }

  /** The first block of a text that holds the opening, when a block is written after it,
      ends within the text or at the end of all. */
  lemma EarlierOpening(text: string, opening: string, inner: string, closing: string)
    requires EndsOnce(closing) && closing[|closing| - 1] !in "\n\n" + (opening + inner)
    requires opening != "" && '\n' !in closing && Contains(text, opening)
    ensures var content := text + ("\n\n" + (opening + inner) + closing);
            var block := FindBlock(content, opening, closing);
            && block.Some? && block.value.0 == IndexOf(text, opening) < |text|
            && (block.value.1 <= |text| || block.value.1 == |content|)
  {
    var gap := "\n\n" + (opening + inner);
    var content := text + (gap + closing);
    var start := IndexOf(text, opening);
    assert content[start..start + |opening|] == text[start..start + |opening|];
    forall k | 0 <= k < start
      ensures !OccursAt(content, opening, k)
    {
      if OccursAt(content, opening, k) { OccursLeft(text, gap + closing, opening, k); }
    }
    IndexFromIs(content, opening, 0, start);
    ClosingLast(text, gap, closing, start);
  }

  lemma ClosingLast(text: string, gap: string, closing: string, start: nat)
    requires EndsOnce(closing) && closing[|closing| - 1] !in gap && gap != "" && gap[0] !in closing && start <= |text|
    ensures var end := IndexFrom(text + (gap + closing), closing, start);
            end >= 0 && (end + |closing| <= |text| || end == |text| + |gap|)
  {
    var content := text + (gap + closing);
    var end := IndexFrom(content, closing, start);
    var last := |text| + |gap|;
    assert content[last..last + |closing|] == closing;
    assert OccursAt(content, closing, last);
    NoStraddle(text, gap + closing, closing, end);
  }

  /** What is left when the first block ends within the text or with the block written last. */
  lemma LeftOver(text: string, gap: string, block: string, start: nat, end: nat)
    requires start <= end && start < |text| && block != "" && Trimmed(block, IsJsSpace) && |text| < |block|
    requires end <= |text| || end == |text + (gap + block)|
    ensures var content := text + (gap + block);
            TrimJs(content[..start] + content[end..]) != text
  {
    var content := text + (gap + block);
    if end <= |text| {
      var pad := text[..start] + (text[end..] + gap);
      assert content[..start] + content[end..] == pad + block;
      TrimKeeps(pad, block);
    } else {
      assert content[..start] + content[end..] == text[..start];
    }
  }

  lemma EnclosedLoses(text: string, opening: string, payload: string, closing: string)
    requires opening != "" && opening[0] == '<' && '>' !in opening && Contains(text, opening)
    requires EndsOnce(closing) && closing[|closing| - 1] == '>' && '\n' !in closing
    requires Compact(payload) && |payload| > |text|
    ensures WithoutBlock(text + "\n\n" + Enclosed(opening, payload, closing), opening, closing, TrimJs) != text
  {
    var inner := ":" + (payload + " ");
    var block := Enclosed(opening, payload, closing);
    assert block[0] == '<' && block[|block| - 1] == '>';
    EarlierOpening(text, opening, inner, closing);
    Reassociate(text, "\n\n", opening, inner, closing);
    var found := FindBlock(text + ("\n\n" + block), opening, closing).value;
    LeftOver(text, "\n\n", block, found.0, found.1);
  }

  lemma Reassociate(a: string, b: string, c: string, d: string, e: string)
    ensures a + (b + (c + d) + e) == a + (b + (c + (d + e)))
    ensures a + b + (c + (d + e)) == a + (b + (c + (d + e)))
  {
    assert b + (c + d) + e == b + (c + (d + e));
  }

  /** An image whose data is longer than a given text. */
  function LongImage(n: nat): (r: Image) {
    Image("image/png", seq(n + 1, _ => 'A'))
  }

  lemma LongDataPlain(n: nat)
    ensures PlainField(LongImage(n).data) && |LongImage(n).data| == n + 1
  {
    assert LongImage(n).data[0] == 'A';
  }

  lemma PngPlain()
    ensures PlainField("image/png") && StartsWith("image/png", "image/")
  {
    assert "image/png"[..6] == "image/";
  }

  lemma LongImageCarried(n: nat, lower: string -> string)
    requires lower("image/png") == "image/png"
    ensures AllCarried([LongImage(n)], lower) && |ImagePayload([LongImage(n)])| > n
  {
    LongDataPlain(n);
    PngPlain();
    assert CarriedImage(LongImage(n), lower);
    assert Map(Item, [LongImage(n)])[0] == Item(LongImage(n));
  }

  /** A text survives every choice of attached images exactly when it does not hold the
      beginning of an image block. */
  lemma ImagesBackExactly(message: string, lower: string -> string)
    requires lower("image/png") == "image/png"
    ensures (forall images :: images != [] && AllCarried(images, lower) ==>
               WithoutBlock(EncodeLocal(message, images), IMAGE_BEGIN, IMAGE_END, TrimJs) == TrimJs(message))
        <==> !Contains(TrimJs(message), IMAGE_BEGIN)
  {
    var text := TrimJs(message);
    if Contains(text, IMAGE_BEGIN) {
      var images := [LongImage(|text|)];
      ImageMarkers();
      LongImageCarried(|text|, lower);
      PayloadBackImages(images, lower);
      EnclosedLoses(text, IMAGE_BEGIN, ImagePayload(images), IMAGE_END);
      assert EncodeLocal(message, images) == text + "\n\n" + ImageBlock(images);
    } else {
      forall images | images != [] && AllCarried(images, lower)
        ensures WithoutBlock(EncodeLocal(message, images), IMAGE_BEGIN, IMAGE_END, TrimJs) == text
      {
        ImagesBack(message, images, lower);
      }
    }
  }

  // ---------- a sent reply ----------

  lemma {:induction false} PiecesLack(parts: seq<string>, p: string, i: nat)
    requires i < |parts| && !Contains(Join(parts, '\n'), p)
    ensures !Contains(parts[i], p)
  {
    var whole := Join(parts, '\n');
    if |parts| > 1 {
      var rest := Join(parts[1..], '\n');
      if i == 0 {
        SliceLacks(whole, p, 0, |parts[0]|);
        assert whole[0..|parts[0]|] == parts[0];
      } else {
        SliceLacks(whole, p, |parts[0]| + 1, |whole|);
        assert whole[|parts[0]| + 1..|whole|] == rest;
        PiecesLack(parts[1..], p, i - 1);
      }
    }
  }

  lemma {:induction false} JoinLacks(parts: seq<string>, p: string)
    requires p != "" && '\n' !in p
    requires forall i :: 0 <= i < |parts| ==> !Contains(parts[i], p)
    ensures !Contains(Join(parts, '\n'), p)
  {
    if |parts| == 0 {
      CharLacks("", p, 0);
    } else if |parts| > 1 {
      JoinLacks(parts[1..], p);
      CharLacks("\n", p, 0);
      AppendLacks(parts[0], "\n", p);
      AppendLacks(parts[0] + ['\n'], Join(parts[1..], '\n'), p);
    }
  }

  lemma QuoteLineLacks(line: string, p: string)
    requires p != "" && p[0] == '<' && !Contains(line, p)
    ensures !Contains(QuoteLine(line), p)
  {
    PrefixLacks("> ", line, p);
    CharLacks(">", p, 0);
  }

  lemma QuoteTextLacks(s: string, p: string)
    requires p != "" && p[0] == '<' && '\n' !in p && !Contains(s, p)
    ensures !Contains(QuoteText(s), p)
  {
    var lines := Split(s, '\n');
    JoinSplit(s, '\n');
    forall i | 0 <= i < |lines|
      ensures !Contains(QuoteLine(lines[i]), p)
    {
      PiecesLack(lines, p, i);
      QuoteLineLacks(lines[i], p);
    }
    JoinLacks(Map(QuoteLine, lines), p);
  }

  lemma CutLacks(s: string, max: nat, mark: string, p: string)
    requires !Contains(s, p) && !Contains(mark, p) && mark != "" && mark[0] !in p
    ensures !Contains(Cut(s, max, mark), p)
  {
    if |s| > max {
      PrefixOf(s, p, max);
      AppendLacks(s[..max], mark, p);
    }
  }

  lemma QuotedLacks(content: string, p: string)
    requires p != "" && p[0] == '<' && '\n' !in p && !Contains(content, p)
    ensures !Contains(Quoted(content), p)
  {
    TrimLacks(content, p);
    CharLacks(ELLIPSIS, p, 0);
    CutLacks(TrimJs(content), MAX_REPLY_QUOTE_CHARS, ELLIPSIS, p);
    QuoteTextLacks(Truncate(content), p);
  }

  lemma ReplyVersusImage()
    ensures IMAGE_BEGIN[14] !in REPLY_BEGIN && REPLY_BEGIN[|REPLY_BEGIN| - 1] !in IMAGE_BEGIN
    ensures '<' !in REPLY_END && '|' !in IMAGE_BEGIN
  {}

  lemma InstructionVersusImage()
    ensures IMAGE_BEGIN[14] !in INSTRUCTION_BEGIN && INSTRUCTION_BEGIN[|INSTRUCTION_BEGIN| - 1] !in IMAGE_BEGIN
    ensures '<' !in INSTRUCTION_END
  {}

  lemma PrefaceLacks(body: string)
    requires !Contains(body, IMAGE_BEGIN)
    ensures !Contains(Preface(body), IMAGE_BEGIN)
  {
    ImageMarkers();
    InstructionVersusImage();
    WordsUnbracketed();
    CharLacks(INSTRUCTION_BEGIN, IMAGE_BEGIN, 14);
    BlockLacks(INSTRUCTION_BEGIN, InstructionWords(), INSTRUCTION_END, body, IMAGE_BEGIN);
  }

  lemma BlockLacks(opening: string, words: string, closing: string, body: string, p: string)
    requires p != "" && p[0] == '<' && !Contains(body, p) && '<' !in words && '<' !in closing
    requires opening != "" && opening[|opening| - 1] !in p && !Contains(opening, p)
    ensures !Contains("\n" + (opening + words + (closing + ("\n" + body))), p)
  {
    var rest := closing + ("\n" + body);
    PrefixLacks("\n", body, p);
    PrefixLacks(closing, "\n" + body, p);
    PrefixLacks(words, rest, p);
    AppendLacks(opening, words + rest, p);
    assert opening + (words + rest) == opening + words + rest;
    PrefixLacks("\n", opening + words + rest, p);
  }

  lemma MarkerLacks(opening: string, id: string, date: string, closing: string, rest: string, p: string)
    requires p != "" && p[0] == '<' && '|' !in p && !Contains(rest, p) && '<' !in date && '<' !in closing
    requires opening != "" && opening[|opening| - 1] !in p && !Contains(opening, p) && !Contains(id, p)
    ensures !Contains(opening + (id + ("|" + date) + (" " + (closing + rest))), p)
  {
    var tail := " " + (closing + rest);
    PrefixLacks(closing, rest, p);
    PrefixLacks(" ", closing + rest, p);
    PrefixLacks("|" + date, tail, p);
    AppendLacks(id, "|" + date + tail, p);
    AppendLacks(opening, id + ("|" + date + tail), p);
    assert id + ("|" + date + tail) == id + ("|" + date) + tail;
  }

  /** A reply whose id, quote and text do not hold the beginning of an image block does not
      hold it either. */
  lemma SentLacks(message: string, target: ReplyTarget, uri: UriCodec)
    requires Lawful(uri) && !Contains(message, IMAGE_BEGIN)
    requires !Contains(target.messageId, IMAGE_BEGIN) && !Contains(target.content, IMAGE_BEGIN)
    ensures !Contains(FormatReply(message, target, uri), IMAGE_BEGIN)
  {
    ImageMarkers();
    BodyLacks(message, target.content, IMAGE_BEGIN);
    EnvelopeLacks(target, uri, Quoted(target.content) + ("\n\n" + TrimJs(message)));
  }

  lemma BodyLacks(message: string, content: string, p: string)
    requires p != "" && p[0] == '<' && '\n' !in p && !Contains(message, p) && !Contains(content, p)
    ensures !Contains(Quoted(content) + ("\n\n" + TrimJs(message)), p)
  {
    QuotedLacks(content, p);
    TrimLacks(message, p);
    PrefixLacks("\n\n", TrimJs(message), p);
    AppendLacks(Quoted(content), "\n\n" + TrimJs(message), p);
  }

  lemma EnvelopeLacks(target: ReplyTarget, uri: UriCodec, body: string)
    requires Lawful(uri) && !Contains(target.messageId, IMAGE_BEGIN) && !Contains(body, IMAGE_BEGIN)
    ensures !Contains(Envelope(target, uri, body), IMAGE_BEGIN)
  {
    ImageMarkers();
    ReplyVersusImage();
    PrefaceLacks(body);
    DateTrimmed(target.createdAt, uri);
    CharLacks(REPLY_BEGIN, IMAGE_BEGIN, 14);
    MarkerLacks(REPLY_BEGIN, target.messageId, uri.encode(target.createdAt), REPLY_END, Preface(body), IMAGE_BEGIN);
  }

  /** A reply with images, encoded and read back: text, images, target and truncated quote are
      recovered exactly when the text is not blank; a blank reply loses its divider to the
      trimming and is shown as the raw header. */
  lemma SentBack(message: string, target: ReplyTarget, images: seq<Image>, uri: UriCodec, lower: string -> string)
    requires Lawful(uri) && CarriedId(target.messageId) && AllCarried(images, lower)
    requires !Contains(message, IMAGE_BEGIN)
    requires !Contains(target.messageId, IMAGE_BEGIN) && !Contains(target.content, IMAGE_BEGIN)
    ensures ParseStored(EncodeLocal(FormatReply(message, target, uri), images), uri, lower)
         == if TrimJs(message) == ""
            then Stored(Envelope(target, uri, Quoted(target.content)), Map(Normalized(lower), images), None)
            else Stored(TrimJs(message), Map(Normalized(lower), images), Some(Sent(message, target)))
  {
    var sent := FormatReply(message, target, uri);
    SentLacks(message, target, uri);
    TrimLacks(sent, IMAGE_BEGIN);
    ImagesBack(sent, images, lower);
    TrimmedReplyBack(message, target, uri);
    TrimFormatted(message, target, uri);
  }
}

/** The projection of a stored message for the search index, and the most bytes it can take. */
module MessageDocument {

  import opened Bytes
  import opened Decimal
  import opened DocumentLimits
  import opened Utf8

  type Text = seq<Byte>

  const MAX_INDEXED_BODY_BYTES := 1024 * 1024
  const MAX_INDEXED_ATTACHMENTS_BYTES := 1024 * 1024
  const MAX_INDEXED_HEADER_BYTES := 64 * 1024
  const MAX_INDEXED_NAMES_BYTES := 128 * 1024
  const MAX_INDEXED_LANGUAGE_BYTES := 32
  const MAX_COMPOUND_FIELD_BYTES := 128 * 1024

  const MAX_PROJECTED_DOCUMENT_BYTES: nat :=
    8 * MAX_INDEXED_HEADER_BYTES + MAX_INDEXED_BODY_BYTES + 2 * MAX_INDEXED_NAMES_BYTES
    + MAX_INDEXED_ATTACHMENTS_BYTES + MAX_COMPOUND_FIELD_BYTES + MAX_INDEXED_LANGUAGE_BYTES + 2 * 20 + 5 * 5

  datatype Message = Message(
    id: int64, userId: int64, accountId: int64, mailboxId: int64,
    subject: Text, fromAddr: Text, toAddr: Text, ccAddr: Text, messageIdHeader: Text,
    bodyText: Text, languageCode: Text, date: int,
    isRead: bool, isStarred: bool, isEncrypted: bool, isSigned: bool, hasAttachments: bool)

  datatype Attachment = Attachment(filename: Text, contentType: Text, text: Text)

  /** A field of the document: text, which is counted, or the date, which is not. */
  datatype Field = Words(text: Text) | Instant(time: int)

  type Projection = map<string, Field>

  /** The text functions the projection draws on, whatever they compute. */
  datatype TextTools = TextTools(
    compound: seq<Text> -> Text,
    domains: Text -> Text,
    preview: (Text, int) -> Text,
    language: Text -> Text)

  /** What strings.TrimSpace leaves nothing of. */
  predicate Blank(text: Text) {
    text == [] || (SpaceFirst(text) && Blank(text[RuneWidth(text)..]))
  }

  function FormatBool(b: bool): Text {
    if b then [116, 114, 117, 101] else [102, 97, 108, 115, 101]
  }

  function Names(attachments: seq<Attachment>): seq<Text> {
    seq(|attachments|, i requires 0 <= i < |attachments| => attachments[i].filename)
  }

  function ContentTypes(attachments: seq<Attachment>): seq<Text> {
    seq(|attachments|, i requires 0 <= i < |attachments| => attachments[i].contentType)
  }

  /** The texts of the attachments that have any. */
  function Texts(attachments: seq<Attachment>): seq<Text> {
    if attachments == [] then []
    else
      var last := attachments[|attachments| - 1];
      Texts(attachments[..|attachments| - 1]) + if Blank(last.text) then [] else [last.text]
  }

  function Joined(values: seq<Text>, limit: int): Text {
    if limit <= 0 then [] else JoinFrom([], values, limit)
  }

  type Entries = seq<(string, Field)>

  function Headers(tools: TextTools, m: Message): Entries {
    var limit := MAX_INDEXED_HEADER_BYTES;
    var subject, fromAddr := BoundedText(m.subject, limit), BoundedText(m.fromAddr, limit);
    [("subject", Words(subject)),
     ("subject_compound", Words(BoundedText(tools.compound([subject]), limit))),
     ("from", Words(fromAddr)),
     ("from_compound", Words(BoundedText(tools.compound([fromAddr]), limit))),
     ("from_domain", Words(BoundedText(tools.domains(fromAddr), limit))),
     ("to", Words(BoundedText(m.toAddr, limit))),
     ("cc", Words(BoundedText(m.ccAddr, limit))),
     ("message_id", Words(BoundedText(m.messageIdHeader, limit)))]
  }

  function Numbers(m: Message): Entries {
    [("user_id", Words(FormatInt(m.userId))), ("mailbox_id", Words(FormatInt(m.mailboxId)))]
  }

  function Flags(m: Message, attached: seq<Attachment>): Entries {
    [("is_read", Words(FormatBool(m.isRead))),
     ("is_starred", Words(FormatBool(m.isStarred))),
     ("is_encrypted", Words(FormatBool(m.isEncrypted))),
     ("is_signed", Words(FormatBool(m.isSigned))),
     ("has_attachment", Words(FormatBool(m.hasAttachments || |attached| > 0)))]
  }

  function AttachedNames(attached: seq<Attachment>): Entries {
    [("attachment_names", Words(Joined(Names(attached), MAX_INDEXED_NAMES_BYTES))),
     ("attachment_types", Words(Joined(ContentTypes(attached), MAX_INDEXED_NAMES_BYTES)))]
  }

  function Contents(tools: TextTools, m: Message, attached: seq<Attachment>): Entries {
    var body := BoundedText(if m.isEncrypted then [] else m.bodyText, MAX_INDEXED_BODY_BYTES);
    var attachmentText := Joined(Texts(attached), MAX_INDEXED_ATTACHMENTS_BYTES);
    var header := (text: Text) => BoundedText(text, MAX_INDEXED_HEADER_BYTES);
    var compound := tools.compound(
      [header(m.subject), header(m.fromAddr), header(m.toAddr), header(m.ccAddr), header(m.messageIdHeader),
       tools.preview(body, MAX_COMPOUND_FIELD_BYTES / 4),
       Joined(Names(attached), MAX_INDEXED_NAMES_BYTES),
       tools.preview(attachmentText, MAX_COMPOUND_FIELD_BYTES / 4)]);
    [("body", Words(body)),
     ("attachments", Words(attachmentText)),
     ("compound", Words(BoundedText(compound, MAX_COMPOUND_FIELD_BYTES))),
     ("plugin_language_code", Words(BoundedText(tools.language(m.languageCode), MAX_INDEXED_LANGUAGE_BYTES))),
     ("date", Instant(m.date))]
  }

  function FromEntries(entries: Entries): Projection {
    if entries == [] then map[]
    else
      var last := entries[|entries| - 1];
      FromEntries(entries[..|entries| - 1])[last.0 := last.1]
  }

  /** The attachments that may be indexed: none of an encrypted message. */
  function Attached(m: Message, attachments: seq<Attachment>): seq<Attachment> {
    if m.isEncrypted then [] else attachments
  }

  function Document(tools: TextTools, m: Message, attachments: seq<Attachment>): Projection {
    var attached := Attached(m, attachments);
    FromEntries(Headers(tools, m) + Numbers(m) + Flags(m, attached) + AttachedNames(attached)
                + Contents(tools, m, attached))
  }

  // ----- how large it is -----

  function Size(field: Field): nat {
    match field case Words(text) => |text| case Instant(_) => 0
  }

  /** The bytes of all text fields together. */
  ghost function TextBytes(projection: Projection): nat
    decreases |projection.Keys|
  {
    if projection.Keys == {} then 0
    else
      var name :| name in projection;
      OneFewer(projection, name);
      Size(projection[name]) + TextBytes(projection - {name})
  }

  lemma OneFewer(projection: Projection, name: string)
    requires name in projection
    ensures |(projection - {name}).Keys| < |projection.Keys|
  {
    assert (projection - {name}).Keys == projection.Keys - {name};
  }

  /** Whichever field is visited first, the sum is the same. */
  lemma {:induction false} TextBytesSplit(projection: Projection, name: string)
    requires name in projection
    ensures TextBytes(projection) == Size(projection[name]) + TextBytes(projection - {name})
    decreases |projection.Keys|
  {
    assert projection.Keys != {};
    var first :| first in projection
              && TextBytes(projection) == Size(projection[first]) + TextBytes(projection - {first});
    if first != name {
      OneFewer(projection, first);
      OneFewer(projection, name);
      TextBytesSplit(projection - {first}, name);
      TextBytesSplit(projection - {name}, first);
      assert projection - {first} - {name} == projection - {name} - {first};
    }
  }

  function EntryBytes(entries: Entries): nat {
    if entries == [] then 0 else EntryBytes(entries[..|entries| - 1]) + Size(entries[|entries| - 1].1)
  }

  lemma {:induction false} EntriesBoundProjection(entries: Entries)
    ensures TextBytes(FromEntries(entries)) <= EntryBytes(entries)
  {
    if entries != [] {
      var before := FromEntries(entries[..|entries| - 1]);
      var (name, field) := entries[|entries| - 1];
      EntriesBoundProjection(entries[..|entries| - 1]);
      TextBytesSplit(before[name := field], name);
      if name in before {
        TextBytesSplit(before, name);
      }
      assert before[name := field] - {name} == before - {name};
      assert name !in before ==> before - {name} == before;
    }
  }

  lemma {:induction false} EntryBytesConcat(a: Entries, b: Entries)
    ensures EntryBytes(a + b) == EntryBytes(a) + EntryBytes(b)
  {
    if b == [] {
      assert a + b == a;
    } else {
      EntryBytesConcat(a, b[..|b| - 1]);
      assert (a + b)[..|a + b| - 1] == a + b[..|b| - 1];
    }
  }

  lemma {:induction false} EntriesWithin(entries: Entries, limit: nat)
    requires forall i :: 0 <= i < |entries| ==> Size(entries[i].1) <= limit
    ensures EntryBytes(entries) <= |entries| * limit
  {
    if entries != [] {
      EntriesWithin(entries[..|entries| - 1], limit);
      assert |entries| * limit == (|entries| - 1) * limit + limit;
    }
  }

  lemma BoundedTextFits(value: Text, limit: nat)
    ensures |BoundedText(value, limit)| <= limit
  {
    BoundedTextIsIndexable(value, limit);
  }

  lemma JoinedFits(values: seq<Text>, limit: nat)
    ensures |Joined(values, limit)| <= limit
  {
    if limit > 0 {
      RunsFromIsBounded([]);
      JoinIsIndexable([], values, limit);
    }
  }

  lemma HeadersFit(tools: TextTools, m: Message)
    ensures EntryBytes(Headers(tools, m)) <= 8 * MAX_INDEXED_HEADER_BYTES
  {
    hide BoundedText;
    forall value ensures |BoundedText(value, MAX_INDEXED_HEADER_BYTES)| <= MAX_INDEXED_HEADER_BYTES {
      BoundedTextFits(value, MAX_INDEXED_HEADER_BYTES);
    }
    EntriesWithin(Headers(tools, m), MAX_INDEXED_HEADER_BYTES);
  }

  lemma SmallEntriesFit(m: Message, attached: seq<Attachment>)
    ensures EntryBytes(Numbers(m)) <= 2 * 20
    ensures EntryBytes(Flags(m, attached)) <= 5 * 5
    ensures EntryBytes(AttachedNames(attached)) <= 2 * MAX_INDEXED_NAMES_BYTES
  {
    hide FormatInt, Joined;
    FormatIntFits(m.userId);
    FormatIntFits(m.mailboxId);
    EntriesWithin(Numbers(m), 20);
    EntriesWithin(Flags(m, attached), 5);
    JoinedFits(Names(attached), MAX_INDEXED_NAMES_BYTES);
    JoinedFits(ContentTypes(attached), MAX_INDEXED_NAMES_BYTES);
    EntriesWithin(AttachedNames(attached), MAX_INDEXED_NAMES_BYTES);
  }

  lemma ContentsFit(tools: TextTools, m: Message, attached: seq<Attachment>)
    ensures EntryBytes(Contents(tools, m, attached))
         <= MAX_INDEXED_BODY_BYTES + MAX_INDEXED_ATTACHMENTS_BYTES + MAX_COMPOUND_FIELD_BYTES
            + MAX_INDEXED_LANGUAGE_BYTES
  {
    hide BoundedText, Joined;
    forall value, limit: nat ensures |BoundedText(value, limit)| <= limit {
      BoundedTextFits(value, limit);
    }
    JoinedFits(Texts(attached), MAX_INDEXED_ATTACHMENTS_BYTES);
    var entries := Contents(tools, m, attached);
    EntriesOfFive(entries[0], entries[1], entries[2], entries[3], entries[4]);
  }

  lemma EntriesOfFive(a: (string, Field), b: (string, Field), c: (string, Field), d: (string, Field), e: (string, Field))
    ensures EntryBytes([a, b, c, d, e]) == Size(a.1) + Size(b.1) + Size(c.1) + Size(d.1) + Size(e.1)
  {
    EntryBytesConcat([a], [b]);
    EntryBytesConcat([a] + [b], [c]);
    EntryBytesConcat([a] + [b] + [c], [d]);
    EntryBytesConcat([a] + [b] + [c] + [d], [e]);
    assert [a, b, c, d, e] == [a] + [b] + [c] + [d] + [e];
  }

  /** Whatever the message holds and the text functions return, its document fits the reserved maximum. */
  lemma DocumentFits(tools: TextTools, m: Message, attachments: seq<Attachment>)
    ensures TextBytes(Document(tools, m, attachments)) <= MAX_PROJECTED_DOCUMENT_BYTES
  {
    hide Headers, Numbers, Flags, AttachedNames, Contents, TextBytes, EntryBytes, FromEntries;
    var attached := Attached(m, attachments);
    var a, b, c := Headers(tools, m), Numbers(m), Flags(m, attached);
    var d, e := AttachedNames(attached), Contents(tools, m, attached);
    HeadersFit(tools, m);
    SmallEntriesFit(m, attached);
    ContentsFit(tools, m, attached);
    EntryBytesConcat(a, b);
    EntryBytesConcat(a + b, c);
    EntryBytesConcat(a + b + c, d);
    EntryBytesConcat(a + b + c + d, e);
    EntriesBoundProjection(a + b + c + d + e);
  }

  /** Nothing of an encrypted message's body or attachments reaches the index. */
  lemma EncryptedContentStaysOut(tools: TextTools, m: Message, body: Text, a: seq<Attachment>, b: seq<Attachment>)
    requires m.isEncrypted
    ensures Document(tools, m, a) == Document(tools, m.(bodyText := body), b)
  {
    hide FromEntries, BoundedText, Joined;
  }

  /** The loop that gathers what is joined: all names and types, and the texts that are not blank. */
  method CollectAttachments(attached: seq<Attachment>)
    returns (names: seq<Text>, contentTypes: seq<Text>, texts: seq<Text>)
    ensures names == Names(attached) && contentTypes == ContentTypes(attached) && texts == Texts(attached)
  {
    names, contentTypes, texts := [], [], [];
    for i := 0 to |attached|
      invariant names == Names(attached[..i]) && contentTypes == ContentTypes(attached[..i])
      invariant texts == Texts(attached[..i])
    {
      var attachment := attached[i];
      assert attached[..i + 1][..i] == attached[..i];
      names := names + [attachment.filename];
      contentTypes := contentTypes + [attachment.contentType];
      if !Blank(attachment.text) {
        texts := texts + [attachment.text];
      }
    }
    assert attached[..|attached|] == attached;
  }
}

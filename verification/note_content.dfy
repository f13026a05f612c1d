/**
 The note body as the server stores it, a type tag and a data value, and the
 two conversions the client applies: plain text is wrapped as a "text" body,
 and any body is read back as text. A body whose data is not a string is read
 through its JSON serialisation, which the model carries alongside the value.
 */
module NoteContent {
  import opened Seqs

  /** The `data` field: a string, or a structured value together with its JSON text. */
  datatype ContentData = Str(s: string) | Structured(json: string)

  /** A stored body; `kind` is the type tag ("text", "delta", "prosemirror" or "markdown"). */
  datatype Content = Content(kind: string, data: ContentData)

  /** `textToContent`. */
  function TextToContent(text: string): (c: Content)
    ensures c.kind == "text" && c.data == Str(text)
  {
    Content("text", Str(text))
  }

  /** `contentToText`: a missing body is "", string data is returned whatever the tag, anything else is serialised. */
  function ContentToText(content: Option<Content>): (r: string)
    ensures content.None? ==> r == ""
    ensures content.Some? && content.value.data.Str? ==> r == content.value.data.s
    ensures content.Some? && content.value.data.Structured? ==> r == content.value.data.json
  {
    match content
    case None => ""
    case Some(c) =>
      if c.kind == "text" && c.data.Str? then c.data.s
      else if c.data.Str? then c.data.s
      else c.data.json
  }

  /** Reading back wrapped text gives the text. */
  lemma TextRoundTrip(text: string)
    ensures ContentToText(Some(TextToContent(text))) == text
  {
  }

  /** The type tag never influences the text read back. */
  lemma TagIrrelevant(c: Content, otherKind: string)
    ensures ContentToText(Some(c)) == ContentToText(Some(c.(kind := otherKind)))
  {
  }

  /** Wrapping the text read from a string body gives a "text" body with the same data. */
  lemma ReWrapStringBody(c: Content)
    requires c.data.Str?
    ensures TextToContent(ContentToText(Some(c))) == c.(kind := "text")
  {
  }

  /** The body of `POST /notes`. */
  datatype CreatePayload = CreatePayload(title: string, content: Content)

  /** The body of `PATCH /notes/{id}`: a field is present only when the caller provided it. */
  datatype UpdatePayload = UpdatePayload(title: Option<string>, content: Option<Content>)

  /** The create mutation wraps the given text. */
  function CreateNote(title: string, text: string): (p: CreatePayload)
    ensures p.title == title
    ensures p.content.kind == "text" && ContentToText(Some(p.content)) == text
  {
    CreatePayload(title, TextToContent(text))
  }

  /** The update mutation copies the provided fields and wraps provided content. */
  function UpdateNote(title: Option<string>, text: Option<string>): (p: UpdatePayload)
    ensures p.title == title
    ensures p.content.Some? <==> text.Some?
    ensures text.Some? ==> p.content.value.kind == "text" && ContentToText(p.content) == text.value
  {
    UpdatePayload(title, if text.Some? then Some(TextToContent(text.value)) else None)
  }

  /** A payload round-trips: the fields read back from it are the fields that were given. */
  lemma UpdateReadsBack(title: Option<string>, text: Option<string>)
    ensures var p := UpdateNote(title, text);
      p.title == title && (if p.content.Some? then Some(ContentToText(p.content)) else None) == text
  {
  }
}

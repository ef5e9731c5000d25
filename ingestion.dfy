/**
 * `IngestionService`: a Markdown stream becomes one document titled by its
 * first level-1 heading; any other file is sent to the Unstructured API and
 * the texts of the returned elements are joined into one document.
 * The HTTP call, the stream read and Jackson's parser are parameters.
 */
module Ingestion {
  import opened Wrappers
  import opened Text
  import opened Markdown
  import opened Documents

  /** The exceptions the Java services let escape. */
  datatype JavaError =
    | IngestionException(message: string)
    | RuntimeException(message: string)
    | IllegalArgumentException
    | RestClientException(message: string)

  /** An element of the response: `node.has("text")`, with `asText()` of that field. */
  datatype JsonNode = JsonNode(text: Option<string>)

  /** `readTree`: an array of elements, any other value (with its own `text` field, if any), or a parse error. */
  datatype JsonRoot = JsonArray(nodes: seq<JsonNode>) | JsonValue(text: Option<string>)
  datatype JsonParse = Parsed(root: JsonRoot) | Malformed

  /** The body `RestClient` hands back: a string, `null`, or a failed exchange. */
  datatype HttpReply = Body(content: Option<string>) | HttpFailure(message: string)

  /**
   * The title `processMarkdown` stores: the first level-1 heading's `Text`
   * literal, or the file name when there is none or it is blank.
   */
  function MarkdownTitle(headings: seq<Heading>, filename: string): string {
    match FirstH1Text(headings)
    case Some(t) => if AllSpace(t) then filename else t
    case None => filename
  }

  /**
   * The stored title is the file name when no level-1 heading starts with a
   * `Text` node or the first that does is blank; otherwise it is that
   * heading's literal. A title is never blank unless the file name is.
   */
  lemma MarkdownTitleMeans(headings: seq<Heading>, filename: string)
    ensures (forall i :: 0 <= i < |headings| ==> !GivesTitle(headings[i])) ==> MarkdownTitle(headings, filename) == filename
    ensures forall i :: 0 <= i < |headings| && GivesTitle(headings[i]) && (forall j :: 0 <= j < i ==> !GivesTitle(headings[j])) ==>
      MarkdownTitle(headings, filename) ==
        (if AllSpace(headings[i].firstChild.literal) then filename else headings[i].firstChild.literal)
    ensures !AllSpace(filename) ==> !AllSpace(MarkdownTitle(headings, filename))
  {
    FirstH1TextMeans(headings);
    forall i | 0 <= i < |headings| && GivesTitle(headings[i]) && (forall j :: 0 <= j < i ==> !GivesTitle(headings[j]))
      ensures FirstH1Text(headings) == Some(headings[i].firstChild.literal)
    {
      var k :| 0 <= k < |headings| && GivesTitle(headings[k]) && FirstH1Text(headings) == Some(headings[k].firstChild.literal) &&
        forall j :: 0 <= j < k ==> !GivesTitle(headings[j]);
      assert !(k < i) && !(i < k);
    }
  }

  function MarkdownMetadata(filename: string, title: string): map<string, Meta> {
    map[KeySource := Str(filename), KeyTitle := Str(title), KeyType := Str(TypeMarkdown)]
  }

  /**
   * `processMarkdown`: an unreadable stream is an `IngestionException`
   * naming the file; otherwise one document with the rendered text and the
   * source, title and type.
   */
  method ProcessMarkdown(read: Result<string, string>, filename: string, parse: string -> Parsed)
    returns (r: Result<seq<Document>, JavaError>)
    ensures read.Failure? ==> r == Failure(IngestionException("Failed to process markdown file: " + filename))
    ensures read.Success? ==>
      var doc := parse(read.value);
      r == Success([Document(doc.text, MarkdownMetadata(filename, MarkdownTitle(doc.headings, filename)))])
  {
    if read.Failure? {
      return Failure(IngestionException("Failed to process markdown file: " + filename));
    }
    var content := read.value;
    var doc := parse(content);
    var title := ExtractTitle(doc);
    var chosen: string;
    if title.None? || AllSpace(title.value) {
      chosen := filename;
    } else {
      chosen := title.value;
    }
    var cleanText := doc.text;
    return Success([Document(cleanText, MarkdownMetadata(filename, chosen))]);
  }

  /** The text of the elements that carry one, each followed by `sep`, in order. */
  function TextsOf(nodes: seq<JsonNode>, sep: string): string
    decreases |nodes|
  {
    if nodes == [] then ""
    else
      var last := nodes[|nodes| - 1];
      TextsOf(nodes[..|nodes| - 1], sep) + (if last.text.Some? then last.text.value + sep else "")
  }

  /**
   * With a non-empty separator the joined text is empty exactly when no
   * element carries a text, even an empty one.
   */
  lemma {:induction false} TextsEmptyIff(nodes: seq<JsonNode>, sep: string)
    requires sep != ""
    ensures TextsOf(nodes, sep) == "" <==> forall i :: 0 <= i < |nodes| ==> nodes[i].text.None?
    decreases |nodes|
  {
    if nodes != [] {
      var init := nodes[..|nodes| - 1];
      TextsEmptyIff(init, sep);
      assert forall i :: 0 <= i < |init| ==> init[i] == nodes[i];
    }
  }

  /** Every text of the response appears in the joined text, followed by the separator. */
  lemma {:induction false} TextsAppear(nodes: seq<JsonNode>, sep: string, i: int)
    requires 0 <= i < |nodes| && nodes[i].text.Some?
    ensures Contains(TextsOf(nodes, sep), nodes[i].text.value + sep)
    decreases |nodes|
  {
    var init := nodes[..|nodes| - 1];
    var t := TextsOf(nodes, sep);
    if i == |nodes| - 1 {
      var piece := nodes[i].text.value + sep;
      assert t == TextsOf(init, sep) + piece;
      assert t[|TextsOf(init, sep)|..|TextsOf(init, sep)| + |piece|] == piece;
      ContainsAt(t, piece, |TextsOf(init, sep)|);
    } else {
      assert init[i] == nodes[i];
      TextsAppear(init, sep, i);
      var piece := nodes[i].text.value + sep;
      ContainsIff(TextsOf(init, sep), piece);
      var k :| OccursAt(TextsOf(init, sep), piece, k);
      var rest := if nodes[|nodes| - 1].text.Some? then nodes[|nodes| - 1].text.value + sep else "";
      assert t == TextsOf(init, sep) + rest;
      assert t[k..k + |piece|] == TextsOf(init, sep)[k..k + |piece|];
      ContainsAt(t, piece, k);
    }
  }

  /** The `StringBuilder` loop over the elements. */
  method CollectTexts(nodes: seq<JsonNode>, sep: string) returns (fullText: string)
    ensures fullText == TextsOf(nodes, sep)
  {
    fullText := "";
    var i := 0;
    while i < |nodes|
      invariant 0 <= i <= |nodes|
      invariant fullText == TextsOf(nodes[..i], sep)
    {
      assert nodes[..i + 1][..i] == nodes[..i];
      var node := nodes[i];
      if node.text.Some? {
        fullText := fullText + node.text.value + sep;
      }
      i := i + 1;
    }
    assert nodes[..|nodes|] == nodes;
  }

  const ElementSeparator := "\n"

  function UnstructuredMetadata(filename: string): map<string, Meta> {
    map[KeySource := Str(filename), KeyType := Str(TypeUnstructured)]
  }

  /** The documents of an array response: one when the joined text is not empty, none otherwise. */
  function UnstructuredDocs(fullText: string, filename: string): seq<Document> {
    if fullText == "" then [] else [Document(fullText, UnstructuredMetadata(filename))]
  }

  /**
   * An array response yields a document exactly when one of its elements
   * carries a text; the document then holds every such text.
   */
  lemma UnstructuredDocIff(nodes: seq<JsonNode>, filename: string)
    ensures |UnstructuredDocs(TextsOf(nodes, ElementSeparator), filename)| == 1 <==>
      exists i :: 0 <= i < |nodes| && nodes[i].text.Some?
    ensures UnstructuredDocs(TextsOf(nodes, ElementSeparator), filename) == [] <==>
      forall i :: 0 <= i < |nodes| ==> nodes[i].text.None?
    ensures forall i :: 0 <= i < |nodes| && nodes[i].text.Some? ==>
      var docs := UnstructuredDocs(TextsOf(nodes, ElementSeparator), filename);
      |docs| == 1 && Contains(docs[0].text, nodes[i].text.value + ElementSeparator)
  {
    TextsEmptyIff(nodes, ElementSeparator);
    forall i | 0 <= i < |nodes| && nodes[i].text.Some?
      ensures Contains(TextsOf(nodes, ElementSeparator), nodes[i].text.value + ElementSeparator)
    {
      TextsAppear(nodes, ElementSeparator, i);
    }
  }

  const ParseFailureMessage := "Failed to parse Unstructured API response"

  /**
   * `parseUnstructuredResponse`: a parse error is an `IngestionException`;
   * an array gives its one joined document or none; any other value gives no
   * document.
   */
  method ParseUnstructuredResponse(jsonResponse: string, filename: string, readTree: string -> JsonParse)
    returns (r: Result<seq<Document>, JavaError>)
    ensures readTree(jsonResponse).Malformed? ==> r == Failure(IngestionException(ParseFailureMessage))
    ensures readTree(jsonResponse).Parsed? && readTree(jsonResponse).root.JsonValue? ==> r == Success([])
    ensures readTree(jsonResponse).Parsed? && readTree(jsonResponse).root.JsonArray? ==>
      r == Success(UnstructuredDocs(TextsOf(readTree(jsonResponse).root.nodes, ElementSeparator), filename))
  {
    var documents: seq<Document> := [];
    var parsed := readTree(jsonResponse);
    if parsed.Malformed? {
      return Failure(IngestionException(ParseFailureMessage));
    }
    if parsed.root.JsonArray? {
      var fullText := CollectTexts(parsed.root.nodes, ElementSeparator);
      if fullText != "" {
        documents := documents + [Document(fullText, UnstructuredMetadata(filename))];
        assert documents == [Document(fullText, UnstructuredMetadata(filename))];
      }
    }
    return Success(documents);
  }

  /**
   * `processUnstructured`: a failed exchange escapes as the client's
   * exception, a `null` body as Jackson's `IllegalArgumentException`
   * (which the parse-error handler does not catch); a body is parsed as above.
   */
  method ProcessUnstructured(reply: HttpReply, filename: string, readTree: string -> JsonParse)
    returns (r: Result<seq<Document>, JavaError>)
    ensures reply.HttpFailure? ==> r == Failure(RestClientException(reply.message))
    ensures reply.Body? && reply.content.None? ==> r == Failure(IllegalArgumentException)
    ensures reply.Body? && reply.content.Some? && readTree(reply.content.value).Malformed? ==>
      r == Failure(IngestionException(ParseFailureMessage))
    ensures r.Success? <==> reply.Body? && reply.content.Some? && readTree(reply.content.value).Parsed?
    ensures r.Success? ==>
      r.value == match readTree(reply.content.value).root
        case JsonArray(nodes) => UnstructuredDocs(TextsOf(nodes, ElementSeparator), filename)
        case JsonValue(_) => []
  {
    match reply
    case HttpFailure(message) =>
      return Failure(RestClientException(message));
    case Body(content) =>
      if content.None? {
        return Failure(IllegalArgumentException);
      }
      r := ParseUnstructuredResponse(content.value, filename, readTree);
  }
}

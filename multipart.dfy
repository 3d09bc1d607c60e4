/** A multipart request body as the upload handlers read it, and the field they pick: the
    first field named "file" that carries a file name. */
module Multipart {
  import opened Wrappers
  import opened Json
  import opened Http
  import opened Storage

  /** One part: its name, content type and file name when the part declares them, and its
      bytes (nothing when reading them fails). */
  datatype Field = Field(name: Option<string>, contentType: Option<string>, fileName: Option<string>, data: Option<Bytes>)

  /** What one `next_field` call yields: the next part, or the error that ends the stream. */
  datatype Next = Part(field: Field) | ReadError(text: string)

  const FILE_FIELD: string := "file"
  const FILE_REQUIRED: string := "File field is required"

  /** The accessors as the handlers use them, each defaulting to the empty value. */
  function Name(f: Field): string { f.name.GetOr("") }
  function ContentType(f: Field): string { f.contentType.GetOr("") }
  function Data(f: Field): Bytes { f.data.GetOr([]) }

  predicate Uploadable(f: Field) {
    Name(f) == FILE_FIELD && f.fileName.Some?
  }

  /** A part the loop reads and passes over. */
  predicate Skipped(n: Next) {
    n.Part? && !Uploadable(n.field)
  }

  datatype Selection = Chosen(index: nat) | Broken(text: string) | NoFile

  /** Where reading the stream stops: at the first uploadable field, at the first read
      error, or at the end. */
  function Select(stream: seq<Next>): (s: Selection)
    ensures s.Chosen? ==>
              s.index < |stream| && stream[s.index].Part? && Uploadable(stream[s.index].field) &&
              forall j :: 0 <= j < s.index ==> Skipped(stream[j])
    ensures s.Broken? ==>
              exists k :: 0 <= k < |stream| && stream[k] == ReadError(s.text) &&
                          forall j :: 0 <= j < k ==> Skipped(stream[j])
    ensures s.NoFile? <==> forall j :: 0 <= j < |stream| ==> Skipped(stream[j])
    decreases |stream|
  {
    if stream == [] then NoFile
    else match stream[0]
      case ReadError(t) => Broken(t)
      case Part(f) =>
        if Uploadable(f) then Chosen(0)
        else
          var rest := Select(stream[1..]);
          assert forall j :: 1 <= j < |stream| ==> stream[j] == stream[1..][j - 1];
          match rest
          case Chosen(k) => Chosen(k + 1)
          case Broken(t) =>
            var k :| 0 <= k < |stream[1..]| && stream[1..][k] == ReadError(t) &&
                     forall j :: 0 <= j < k ==> Skipped(stream[1..][j]);
            assert stream[k + 1] == ReadError(t);
            Broken(t)
          case NoFile => NoFile
  }

  /** The part the loop stops at decides the outcome. */
  lemma {:induction false} SelectAt(stream: seq<Next>, i: nat)
    requires i < |stream| && !Skipped(stream[i])
    requires forall j :: 0 <= j < i ==> Skipped(stream[j])
    ensures Select(stream) == (if stream[i].ReadError? then Broken(stream[i].text) else Chosen(i))
    decreases i
  {
    if i > 0 {
      assert Skipped(stream[0]);
      var rest := stream[1..];
      assert rest[i - 1] == stream[i];
      assert forall j :: 0 <= j < i - 1 ==> rest[j] == stream[j + 1];
      SelectAt(rest, i - 1);
    }
  }

  /** Nothing after the deciding part is read: appending parts to a stream that already
      decides leaves the decision alone. */
  lemma {:induction false} SelectIgnoresLaterParts(stream: seq<Next>, later: seq<Next>)
    requires !Select(stream).NoFile?
    ensures Select(stream + later) == Select(stream)
    decreases |stream|
  {
    var all := stream + later;
    assert all[0] == stream[0];
    if stream[0].Part? && !Uploadable(stream[0].field) {
      assert Select(stream[1..]) != NoFile;
      assert all[1..] == stream[1..] + later;
      SelectIgnoresLaterParts(stream[1..], later);
    }
  }

  /** The success response: 201 with `{"url": url}` as a JSON body. */
  function Created(url: string): (r: Response)
    ensures r.status == CREATED && r.body == JsonBody(JObject([("url", JString(url))]))
  {
    Response(CREATED, JSON_HEADERS, JsonBody(JObject([("url", JString(url))])))
  }
}

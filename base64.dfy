/** Reading a file as base64 (src/utils/base64.ts): the browser reads the file as a data URL,
    `data:<mime>;base64,<payload>`, and the prefix up to the first comma is dropped with
    `split(",")[1]`. The same extraction is used by the profile and company pages. */
module Base64 {
  import opened Wrappers
  import Text

  /** `dataUrl.split(",")[1]`: defined exactly when the text holds a comma, and then free of
      commas. */
  function Payload(dataUrl: string): (r: Option<string>)
    ensures r.Some? <==> ',' in dataUrl
    ensures r.Some? ==> ',' !in r.value
  {
    Text.SecondField(dataUrl, ',');
    Text.Field(dataUrl, ',', 1)
  }

  /** Defined exactly when the text holds a comma; then it is the text after the first comma
      up to the next comma or the end, it holds no comma, and it is a slice of the input. */
  lemma PayloadShape(dataUrl: string)
    ensures Payload(dataUrl).Some? <==> ',' in dataUrl
    ensures ',' in dataUrl ==> exists a, b :: ',' !in a && dataUrl == a + [','] + b
                                           && Payload(dataUrl) == Some(Text.Split(b, ',')[0])
    ensures Payload(dataUrl).Some? ==> ',' !in Payload(dataUrl).value
    ensures Payload(dataUrl).Some? ==>
      exists i, j :: 0 <= i <= j <= |dataUrl| && Payload(dataUrl).value == dataUrl[i..j]
  {
    Text.SecondField(dataUrl, ',');
    if Payload(dataUrl).Some? {
      Text.SecondFieldIsSlice(dataUrl, ',');
    }
  }

  /** For a data URL whose media type and payload hold no comma, the result is the payload. */
  lemma DataUrlPayload(mime: string, payload: string)
    requires ',' !in mime && ',' !in payload
    ensures Payload("data:" + mime + ";base64," + payload) == Some(payload)
  {
    var head := "data:" + mime + ";base64";
    assert ',' !in head;
    assert "data:" + mime + ";base64," + payload == head + [','] + payload;
    Text.SplitAtSeparator(head, payload, ',');
    Text.SplitNoSeparator(payload, ',');
    assert Text.Split(head + [','] + payload, ',') == [head, payload];
  }

  /** The chosen file's name, MIME type and size in bytes. */
  datatype File = File(name: string, fileType: string, size: nat)

  /** What the reader reports: the loaded result (`null` as `None`), or a read error. */
  datatype ReadOutcome = Loaded(result: Option<string>) | ReadFailed(error: string)

  /** How the promise of `fileToBase64` settles. */
  datatype Settled = Resolved(value: Option<string>) | Rejected(error: string)

  /** `fileToBase64`: resolves with the payload of the loaded data URL (`undefined` when the
      result is null or holds no comma), rejects with the reader's error. */
  function FileToBase64(read: ReadOutcome): (r: Settled)
    ensures read.ReadFailed? <==> r.Rejected?
    ensures read.ReadFailed? ==> r.error == read.error
    ensures r.Resolved? && r.value.Some? ==> read.result.Some? && ',' in read.result.value
    ensures read.Loaded? && read.result.Some? ==> r == Resolved(Payload(read.result.value))
  {
    match read
    case ReadFailed(error) => Rejected(error)
    case Loaded(result) =>
      Resolved(if result.Some? then Payload(result.value) else None)
  }

  /** A text without a comma resolves to `undefined`. */
  lemma NoCommaNoPayload(text: string)
    requires ',' !in text
    ensures FileToBase64(Loaded(Some(text))) == Resolved(None)
  {
    Text.SecondField(text, ',');
  }
}

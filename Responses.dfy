/**
 * HTTP responses built by the static factories of `Response`: JSON envelopes
 * for data and errors, plain text and HTML.
 */
module Responses {
  import opened JsonValues
  import Utf8
  import opened Wrappers

  const ContentType: string := "Content-Type"

  /**
   * A response body. A JSON body is kept as the document handed to the JSON
   * serializer (the bytes that serializer writes are not part of this model);
   * any other body is its bytes.
   */
  datatype Body = JsonText(doc: Value) | Bytes(data: seq<Utf8.byte>)

  datatype Response = Response(status: int, headers: map<string, string>, body: Body)

  /** True when the response carries exactly one header, `Content-Type`, with the given value. */
  predicate HasOnlyContentType(r: Response, mediaType: string) {
    r.headers.Keys == {ContentType} && r.headers[ContentType] == mediaType
  }

  /** A success envelope `{success: true, data: data}` with status 200. */
  function Json(data: Value): (r: Response)
    ensures r.status == 200
    ensures HasOnlyContentType(r, "application/json")
    ensures r.body.JsonText? && r.body.doc.Obj?
    ensures r.body.doc.fields.Keys == {"success", "data"}
    ensures r.body.doc.fields["success"] == Bool(true) && r.body.doc.fields["data"] == data
  {
    Response(200, map[ContentType := "application/json"],
             JsonText(Obj(map["success" := Bool(true), "data" := data])))
  }

  /** An error envelope `{success: false, error: message}` with the given status. */
  function Error(status: int, message: string): (r: Response)
    ensures r.status == status
    ensures HasOnlyContentType(r, "application/json")
    ensures r.body.JsonText? && r.body.doc.Obj?
    ensures r.body.doc.fields.Keys == {"success", "error"}
    ensures r.body.doc.fields["success"] == Bool(false) && r.body.doc.fields["error"] == Str(message)
  {
    Response(status, map[ContentType := "application/json"],
             JsonText(Obj(map["success" := Bool(false), "error" := Str(message)])))
  }

  /** Plain text, status 200, whose body decodes back to exactly `text`. */
  function Text(text: string): (r: Response)
    ensures r.status == 200
    ensures HasOnlyContentType(r, "text/plain")
    ensures r.body.Bytes? && Utf8.Decode(r.body.data) == Some(text)
  {
    Utf8.DecodeEncode(text);
    Response(200, map[ContentType := "text/plain"], Bytes(Utf8.Encode(text)))
  }

  /** An HTML page, status 200, whose body decodes back to exactly `html`. */
  function Html(html: string): (r: Response)
    ensures r.status == 200
    ensures HasOnlyContentType(r, "text/html; charset=utf-8")
    ensures r.body.Bytes? && Utf8.Decode(r.body.data) == Some(html)
  {
    Utf8.DecodeEncode(html);
    Response(200, map[ContentType := "text/html; charset=utf-8"], Bytes(Utf8.Encode(html)))
  }
}

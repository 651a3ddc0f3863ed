/**
 * The message decoder of the item-load handler: one queue record becomes
 * a skipped record, a decode failure for its message id, or a validated
 * catalog item paired with its message id.
 */
module Decoding {
  import opened Common
  import opened JsonValues

  /** An SQS record; either key may be absent from the record dictionary. */
  datatype QueueRecord = QueueRecord(messageId: Option<string>, body: Option<string>)

  /**
   * A validated STAC item. `collection` is "" when the item has none
   * (None and "" are treated alike by the handler); `document` is the item's
   * JSON dump, which is what the loader writes to the catalog.
   */
  datatype Item = Item(id: string, collection: string, document: Json)

  /**
   * The external decoders: `parse` is `json.loads` (None when the text is
   * not JSON) and `validate` is the STAC item model built from a JSON
   * object's fields (None when validation raises).
   */
  datatype Codec = Codec(parse: string -> Option<Json>, validate: map<string, Json> -> Option<Item>)

  /** Each point at which decoding a record raises. */
  datatype DecodeError =
    | BodyMissing        // the record has no "body"
    | BodyNotJson        // the body is not JSON
    | MessageMissing     // the notification is not an object with a "Message" key
    | MessageNotJson     // the "Message" value is not a JSON text
    | ItemInvalid        // the message is not a valid STAC item
    | CollectionMissing  // the item's collection is absent or empty

  const MessageKey: string := "Message"

  /** Unwraps the SNS notification inside an SQS body and validates the item it carries. */
  function DecodeBody(codec: Codec, body: Option<string>): (r: Result<Item, DecodeError>)
    ensures r == Failure(BodyMissing) <==> body.None?
    ensures r == Failure(BodyNotJson) <==> body.Some? && codec.parse(body.value).None?
    ensures body.Some? && codec.parse(body.value).Some? ==>
              var n := codec.parse(body.value).value;
              (r == Failure(MessageMissing) <==> !n.Object? || MessageKey !in n.fields) &&
              (n.Object? && MessageKey in n.fields && !n.fields[MessageKey].Str? ==> r == Failure(MessageNotJson)) &&
              (n.Object? && MessageKey in n.fields && n.fields[MessageKey].Str? ==>
                 var inner := codec.parse(n.fields[MessageKey].s);
                 (inner.None? ==> r == Failure(MessageNotJson)) &&
                 (inner.Some? && !inner.value.Object? ==> r == Failure(ItemInvalid)) &&
                 (inner.Some? && inner.value.Object? ==>
                    var v := codec.validate(inner.value.fields);
                    (v.None? ==> r == Failure(ItemInvalid)) &&
                    (v.Some? && v.value.collection == "" ==> r == Failure(CollectionMissing)) &&
                    (v.Some? && v.value.collection != "" ==> r == Success(v.value))))
    ensures r.Success? ==> r.value.collection != ""
  {
    match body
    case None => Failure(BodyMissing)
    case Some(text) =>
      match codec.parse(text)
      case None => Failure(BodyNotJson)
      case Some(notification) =>
        if !notification.Object? || MessageKey !in notification.fields then Failure(MessageMissing)
        else match notification.fields[MessageKey]
          case Str(message) =>
            (match codec.parse(message)
             case None => Failure(MessageNotJson)
             case Some(data) =>
               if !data.Object? then Failure(ItemInvalid)
               else match codec.validate(data.fields)
                 case None => Failure(ItemInvalid)
                 case Some(item) =>
                   if item.collection == "" then Failure(CollectionMissing) else Success(item))
          case _ => Failure(MessageNotJson)
  }

  /** The body a producer publishes: the item's JSON text inside a notification's "Message". */
  function Notification(render: Json -> string, fields: map<string, Json>): string
  {
    render(Object(map[MessageKey := Str(render(Object(fields)))]))
  }

  /** Decoding a published notification gives back the item that was published. */
  lemma NotificationRoundTrip(codec: Codec, render: Json -> string, fields: map<string, Json>, item: Item)
    requires forall j :: codec.parse(render(j)) == Some(j)
    requires codec.validate(fields) == Some(item) && item.collection != ""
    ensures DecodeBody(codec, Some(Notification(render, fields))) == Success(item)
  {
    var inner := Object(fields);
    var outer := Object(map[MessageKey := Str(render(inner))]);
    assert codec.parse(render(outer)) == Some(outer);
    assert codec.parse(render(inner)) == Some(inner);
  }

  /** Where one record ends up after the decode step. */
  datatype Disposition =
    | Skipped
    | DecodeFailed(messageId: string)
    | Decoded(messageId: string, item: Item)

  /** The decode step for one record: skip it, fail it, or keep its item. */
  function Classify(codec: Codec, record: QueueRecord): (d: Disposition)
    ensures d.Skipped? <==> !Truthy(record.messageId)
    ensures !d.Skipped? ==> d.messageId == record.messageId.value
    ensures d.DecodeFailed? <==> Truthy(record.messageId) && DecodeBody(codec, record.body).Failure?
    ensures d.Decoded? ==> DecodeBody(codec, record.body) == Success(d.item) && d.item.collection != ""
  {
    if !Truthy(record.messageId) then Skipped
    else match DecodeBody(codec, record.body)
      case Failure(_) => DecodeFailed(record.messageId.value)
      case Success(item) => Decoded(record.messageId.value, item)
  }
}

/** A file attached to a transaction (MondoKit/MondoAttachment.swift). */
module MondoAttachment {
  import opened Wrappers
  import opened SwiftyJSONDecodable

  /** `MondoAttachment`; `attachmentType` is the source's `type`. */
  datatype Attachment = Attachment(id: string, created: Date, attachmentType: string, url: Url)

  /** `Idable.id`. */
  function AttachmentId(a: Attachment): string {
    a.id
  }

  /** The keys of an attachment, in the order they are decoded. */
  const AttachmentKeys: seq<string> := ["id", "created", "type", "url"]

  /** `MondoAttachment.init(json:)`: four required keyed decodes, in order. */
  function DecodeAttachment(p: Platform, j: JSON): Result<Attachment> {
    var id :- ValueForKey(j, "id", DecodeString);
    var created :- ValueForKey(j, "created", DateDecoder(p));
    var attachmentType :- ValueForKey(j, "type", DecodeString);
    var url :- ValueForKey(j, "url", UrlDecoder(p));
    Ok(Attachment(id, created, attachmentType, url))
  }

  /** `MondoAttachment` as a decoder, for the array accessor. */
  function AttachmentDecoder(p: Platform): JSON -> Result<Attachment> {
    j => DecodeAttachment(p, j)
  }

  /** What the keyed decode of field `k` reports on its own. */
  function AttachmentFieldError(p: Platform, j: JSON, k: int): Option<DecodeError> {
    if k == 0 then ValueForKey(j, "id", DecodeString).ErrorOf()
    else if k == 1 then ValueForKey(j, "created", DateDecoder(p)).ErrorOf()
    else if k == 2 then ValueForKey(j, "type", DecodeString).ErrorOf()
    else ValueForKey(j, "url", UrlDecoder(p)).ErrorOf()
  }

  /** What each of the four keyed decodes reports on its own, in order. */
  function AttachmentFieldErrors(p: Platform, j: JSON): seq<Option<DecodeError>> {
    seq(|AttachmentKeys|, k => AttachmentFieldError(p, j, k))
  }

  /** The object an attachment is sent as, with its date written as
      `createdText`. */
  function AttachmentJson(a: Attachment, createdText: string): JSON {
    JObject(map[
      "id" := JString(a.id),
      "created" := JString(createdText),
      "type" := JString(a.attachmentType),
      "url" := JString(a.url.text)])
  }

  /** Fields are decoded in source order: when field `i` is the first to fail, the
      decode fails with its error. */
  lemma DecodeAttachmentFailsAt(p: Platform, j: JSON, i: nat)
    requires 0 <= i < 4 && FailsFirstAt(AttachmentFieldErrors(p, j), i)
    ensures DecodeAttachment(p, j) == Err(AttachmentFieldErrors(p, j)[i].value)
  {
    var errs := AttachmentFieldErrors(p, j);
    if i == 0 {
    } else if i == 1 {
      assert errs[0].None?;
    } else if i == 2 {
      assert errs[0].None? && errs[1].None?;
    } else {
      assert errs[0].None? && errs[1].None? && errs[2].None?;
    }
  }

  /** The decode succeeds exactly when no field fails. */
  lemma DecodeAttachmentOk(p: Platform, j: JSON)
    ensures DecodeAttachment(p, j).Ok? <==> NoneFail(AttachmentFieldErrors(p, j))
  {
    var errs := AttachmentFieldErrors(p, j);
    if NoneFail(errs) {
      assert errs[0].None? && errs[1].None? && errs[2].None? && errs[3].None?;
    } else {
      FirstFailureExists(errs);
      var i: nat :| FailsFirstAt(errs, i);
      DecodeAttachmentFailsAt(p, j, i);
    }
  }

  /** Together: the decode reports the first error among the fields, in source
      order, and none when there is none. */
  lemma DecodeAttachmentReportsFirstError(p: Platform, j: JSON)
    ensures DecodeAttachment(p, j).ErrorOf() == FirstError(AttachmentFieldErrors(p, j))
  {
    var errs := AttachmentFieldErrors(p, j);
    DecodeAttachmentOk(p, j);
    forall i: nat | FailsFirstAt(errs, i)
      ensures DecodeAttachment(p, j).ErrorOf() == errs[i]
    {
      DecodeAttachmentFailsAt(p, j, i);
    }
    FirstErrorCharacterized(errs, DecodeAttachment(p, j).ErrorOf());
  }

  /** On an object: a `created` member that is not null is accepted exactly
      when it is a string one of the two timestamp formats reads, and is
      otherwise reported as `ErrorForKey("created", InvalidValue(raw))`; an
      invalid `url` is reported as `ErrorForKey("url", InvalidValue(raw))`;
      a missing `created` or `url` as `ErrorForKey(key, NullValue)`. */
  lemma AttachmentDateAndUrlErrors(p: Platform, j: JSON)
    requires j.JObject?
    ensures var v := Field(j, "created");
            var errs := AttachmentFieldErrors(p, j);
            (v.JNull? ==> errs[1] == Some(ErrorForKey("created", NullValue))) &&
            (!v.JNull? ==>
               (errs[1].None? <==> v.JString? && (p.dateWithMillis(v.s).Some? || p.dateNoMillis(v.s).Some?)) &&
               (errs[1].Some? ==> errs[1] == Some(ErrorForKey("created", InvalidValue(RawString(v))))))
    ensures var v := Field(j, "url");
            var errs := AttachmentFieldErrors(p, j);
            (v.JNull? ==> errs[3] == Some(ErrorForKey("url", NullValue))) &&
            (!v.JNull? && !v.JString? ==> errs[3] == Some(ErrorForKey("url", WrongType))) &&
            (v.JString? ==> (errs[3].None? <==> p.isUrl(v.s))) &&
            (v.JString? && !p.isUrl(v.s) ==> errs[3] == Some(ErrorForKey("url", InvalidValue(Some(v.s)))))
  {
    DecodeDateOutcome(p, Field(j, "created"));
    DecodeUrlOutcome(p, Field(j, "url"));
  }

  /** The `Idable.id` of a decoded attachment is the "id" string of the
      object. */
  lemma DecodedAttachmentId(p: Platform, j: JSON)
    requires DecodeAttachment(p, j).Ok?
    ensures j.JObject? && Field(j, "id").JString?
    ensures AttachmentId(DecodeAttachment(p, j).value) == Field(j, "id").s
  {
  }

  /** An attachment sent with a date text the formatters read back as its
      date, and a URL NSURL accepts, decodes to itself. */
  lemma AttachmentRoundTrip(p: Platform, a: Attachment, createdText: string)
    requires DecodeDate(p, JString(createdText)) == Ok(a.created)
    requires p.isUrl(a.url.text)
    ensures DecodeAttachment(p, AttachmentJson(a, createdText)) == Ok(a)
  {
    var j := AttachmentJson(a, createdText);
    assert Field(j, "created") == JString(createdText);
    assert Field(j, "url") == JString(a.url.text);
  }
}

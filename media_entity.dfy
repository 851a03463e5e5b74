/** MediaEntity: one media item of a news item; eight fields, each read from the JSON key named beside it. */
module MediaEntities {
  import opened Wrappers
  import opened JavaTypes
  import opened JsonValues
  import opened Gson

  const UrlKey := "url"
  const FormatKey := "format"
  const HeightKey := "height"
  const WidthKey := "width"
  const TypeKey := "type"
  const SubTypeKey := "subtype"
  const CaptionKey := "caption"
  const CopyrightKey := "copyright"

  /** Six String fields and two int fields (height, width). */
  datatype MediaEntity = MediaEntity(
    url: JavaString,
    format: JavaString,
    height: Int32,
    width: Int32,
    mediaType: JavaString,
    subType: JavaString,
    caption: JavaString,
    copyright: JavaString)

  datatype MediaField = Url | Format | Height | Width | MediaType | SubType | Caption | Copyright

  /** a and b agree on every field except possibly f. */
  predicate AgreeExcept(a: MediaEntity, b: MediaEntity, f: MediaField) {
    && (f == Url || a.url == b.url)
    && (f == Format || a.format == b.format)
    && (f == Height || a.height == b.height)
    && (f == Width || a.width == b.width)
    && (f == MediaType || a.mediaType == b.mediaType)
    && (f == SubType || a.subType == b.subType)
    && (f == Caption || a.caption == b.caption)
    && (f == Copyright || a.copyright == b.copyright)
  }

  /** No String field is null, so comparing this item's fields cannot throw. */
  predicate MediaComplete(m: MediaEntity) {
    m.url.Some? && m.format.Some? && m.mediaType.Some? && m.subType.Some? && m.caption.Some? && m.copyright.Some?
  }

  function SetUrl(m: MediaEntity, v: JavaString): (r: MediaEntity)
    ensures r.url == v && AgreeExcept(m, r, Url)
  {
    m.(url := v)
  }

  function SetFormat(m: MediaEntity, v: JavaString): (r: MediaEntity)
    ensures r.format == v && AgreeExcept(m, r, Format)
  {
    m.(format := v)
  }

  function SetHeight(m: MediaEntity, v: Int32): (r: MediaEntity)
    ensures r.height == v && AgreeExcept(m, r, Height)
  {
    m.(height := v)
  }

  function SetWidth(m: MediaEntity, v: Int32): (r: MediaEntity)
    ensures r.width == v && AgreeExcept(m, r, Width)
  {
    m.(width := v)
  }

  function SetType(m: MediaEntity, v: JavaString): (r: MediaEntity)
    ensures r.mediaType == v && AgreeExcept(m, r, MediaType)
  {
    m.(mediaType := v)
  }

  function SetSubType(m: MediaEntity, v: JavaString): (r: MediaEntity)
    ensures r.subType == v && AgreeExcept(m, r, SubType)
  {
    m.(subType := v)
  }

  function SetCaption(m: MediaEntity, v: JavaString): (r: MediaEntity)
    ensures r.caption == v && AgreeExcept(m, r, Caption)
  {
    m.(caption := v)
  }

  function SetCopyright(m: MediaEntity, v: JavaString): (r: MediaEntity)
    ensures r.copyright == v && AgreeExcept(m, r, Copyright)
  {
    m.(copyright := v)
  }

  /** Gson's conversion of one element of a `multimedia` array. Anything but an object fails. */
  function MediaFromJson(j: Json): (r: Result<MediaEntity>)
    ensures !j.JObject? ==> r.Failed?
  {
    match j
    case JObject(m) =>
      var url :- StringMember(m, UrlKey);
      var format :- StringMember(m, FormatKey);
      var height :- IntMember(m, HeightKey);
      var width :- IntMember(m, WidthKey);
      var mediaType :- StringMember(m, TypeKey);
      var subType :- StringMember(m, SubTypeKey);
      var caption :- StringMember(m, CaptionKey);
      var copyright :- StringMember(m, CopyrightKey);
      Ok(MediaEntity(url, format, height, width, mediaType, subType, caption, copyright))
    case _ => Failed
  }

  /** The String half of the key table, paired with e's values. */
  function MediaStringFields(e: MediaEntity): seq<(string, JavaString)> {
    [(UrlKey, e.url), (FormatKey, e.format), (TypeKey, e.mediaType), (SubTypeKey, e.subType),
     (CaptionKey, e.caption), (CopyrightKey, e.copyright)]
  }

  /** The members Gson would write for e: both ints always, each String only when it is not null. */
  function MediaMembers(e: MediaEntity): map<string, Json> {
    PutStrings(map[HeightKey := JNumber(e.height), WidthKey := JNumber(e.width)], MediaStringFields(e))
  }

  /** The eight keys are distinct. */
  lemma MediaKeysDistinct(e: MediaEntity)
    ensures DistinctKeys(MediaStringFields(e))
    ensures forall i :: 0 <= i < |MediaStringFields(e)| ==>
              MediaStringFields(e)[i].0 != HeightKey && MediaStringFields(e)[i].0 != WidthKey
  {
    assert "subtype"[0] != "caption"[0];
    assert "format"[0] != "height"[0];
  }

  /** Every member written for e reads back as the field it came from. */
  lemma MediaMembersReadBack(e: MediaEntity)
    ensures var m := MediaMembers(e);
      && StringMember(m, UrlKey) == Ok(e.url)
      && StringMember(m, FormatKey) == Ok(e.format)
      && IntMember(m, HeightKey) == Ok(e.height)
      && IntMember(m, WidthKey) == Ok(e.width)
      && StringMember(m, TypeKey) == Ok(e.mediaType)
      && StringMember(m, SubTypeKey) == Ok(e.subType)
      && StringMember(m, CaptionKey) == Ok(e.caption)
      && StringMember(m, CopyrightKey) == Ok(e.copyright)
  {
    var fields := MediaStringFields(e);
    var ints := map[HeightKey := JNumber(e.height), WidthKey := JNumber(e.width)];
    MediaKeysDistinct(e);
    PutStringsKeepsOthers(ints, fields, HeightKey);
    PutStringsKeepsOthers(ints, fields, WidthKey);
    forall i | 0 <= i < |fields| ensures StringMember(MediaMembers(e), fields[i].0) == Ok(fields[i].1) {
      PutStringsReadBack(ints, fields, i);
    }
    assert fields[0].0 == UrlKey && fields[1].0 == FormatKey && fields[2].0 == TypeKey;
    assert fields[3].0 == SubTypeKey && fields[4].0 == CaptionKey && fields[5].0 == CopyrightKey;
  }

  /** The eight keys of a media item. */
  function MediaKeys(): set<string> {
    {UrlKey, FormatKey, HeightKey, WidthKey, TypeKey, SubTypeKey, CaptionKey, CopyrightKey}
  }

  /**
   * What Gson's default writer promises for a media item: both int members always, each String
   * member exactly when its field is not null, and no member outside the eight keys.
   */
  lemma MediaMembersWritten(e: MediaEntity)
    ensures var m := MediaMembers(e);
      && m.Keys <= MediaKeys()
      && HeightKey in m && m[HeightKey] == JNumber(e.height)
      && WidthKey in m && m[WidthKey] == JNumber(e.width)
      && StringWritten(m, UrlKey, e.url)
      && StringWritten(m, FormatKey, e.format)
      && StringWritten(m, TypeKey, e.mediaType)
      && StringWritten(m, SubTypeKey, e.subType)
      && StringWritten(m, CaptionKey, e.caption)
      && StringWritten(m, CopyrightKey, e.copyright)
  {
    var fields := MediaStringFields(e);
    var ints := map[HeightKey := JNumber(e.height), WidthKey := JNumber(e.width)];
    MediaKeysDistinct(e);
    PutStringsKeysWithin(ints, fields, MediaKeys());
    PutStringsKeepsOthers(ints, fields, HeightKey);
    PutStringsKeepsOthers(ints, fields, WidthKey);
    forall i | 0 <= i < |fields| ensures StringWritten(MediaMembers(e), fields[i].0, fields[i].1) {
      PutStringsReadBack(ints, fields, i);
    }
    assert fields[0].0 == UrlKey && fields[1].0 == FormatKey && fields[2].0 == TypeKey;
    assert fields[3].0 == SubTypeKey && fields[4].0 == CaptionKey && fields[5].0 == CopyrightKey;
  }

  /**
   * A reference writer for a media item, in the shape of Gson's default toJson. The app itself never
   * writes an entity; it caches the server's own array. The writer is the partner of MediaFromJson.
   */
  function MediaToJson(e: MediaEntity): (j: Json)
    ensures j.JObject? && j.members.Keys <= MediaKeys()
    ensures HeightKey in j.members && j.members[HeightKey] == JNumber(e.height)
    ensures WidthKey in j.members && j.members[WidthKey] == JNumber(e.width)
    ensures StringWritten(j.members, UrlKey, e.url) && StringWritten(j.members, FormatKey, e.format)
    ensures StringWritten(j.members, TypeKey, e.mediaType) && StringWritten(j.members, SubTypeKey, e.subType)
    ensures StringWritten(j.members, CaptionKey, e.caption) && StringWritten(j.members, CopyrightKey, e.copyright)
  {
    MediaMembersWritten(e);
    JObject(MediaMembers(e))
  }

  /**
   * Reading back what the key table writes gives the same item: the eight keys are distinct
   * and every field is read from its own key.
   */
  lemma MediaRoundTrip(e: MediaEntity)
    ensures MediaFromJson(MediaToJson(e)) == Ok(e)
  {
    MediaMembersReadBack(e);
  }
}

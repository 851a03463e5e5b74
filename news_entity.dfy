/**
 * NewsEntity: one news item, seven String fields and an ordered media list, with the structural
 * `equals` the unit tests compare results by.
 */
module NewsEntities {
  import opened Wrappers
  import opened JavaTypes
  import opened JsonValues
  import opened Gson
  import opened MediaEntities

  const SectionKey := "section"
  const SubsectionKey := "subsection"
  const TitleKey := "title"
  const SummaryKey := "abstract"
  const NewsUrlKey := "url"
  const BylineKey := "byline"
  const PublishedDateKey := "published_date"
  const MultimediaKey := "multimedia"

  datatype NewsEntity = NewsEntity(
    section: JavaString,
    subsection: JavaString,
    title: JavaString,
    summary: JavaString,
    url: JavaString,
    byline: JavaString,
    publishedDate: JavaString,
    mediaEntityList: Option<seq<MediaEntity>>)

  datatype NewsField = Section | Subsection | Title | Summary | NewsUrl | Byline | PublishedDate | MediaList

  /** a and b agree on every field except possibly f. */
  predicate AgreeExcept(a: NewsEntity, b: NewsEntity, f: NewsField) {
    && (f == Section || a.section == b.section)
    && (f == Subsection || a.subsection == b.subsection)
    && (f == Title || a.title == b.title)
    && (f == Summary || a.summary == b.summary)
    && (f == NewsUrl || a.url == b.url)
    && (f == Byline || a.byline == b.byline)
    && (f == PublishedDate || a.publishedDate == b.publishedDate)
    && (f == MediaList || a.mediaEntityList == b.mediaEntityList)
  }

  function SetSection(e: NewsEntity, v: JavaString): (r: NewsEntity)
    ensures r.section == v && AgreeExcept(e, r, Section)
  {
    e.(section := v)
  }

  function SetSubsection(e: NewsEntity, v: JavaString): (r: NewsEntity)
    ensures r.subsection == v && AgreeExcept(e, r, Subsection)
  {
    e.(subsection := v)
  }

  function SetTitle(e: NewsEntity, v: JavaString): (r: NewsEntity)
    ensures r.title == v && AgreeExcept(e, r, Title)
  {
    e.(title := v)
  }

  function SetSummary(e: NewsEntity, v: JavaString): (r: NewsEntity)
    ensures r.summary == v && AgreeExcept(e, r, Summary)
  {
    e.(summary := v)
  }

  function SetUrl(e: NewsEntity, v: JavaString): (r: NewsEntity)
    ensures r.url == v && AgreeExcept(e, r, NewsUrl)
  {
    e.(url := v)
  }

  function SetByline(e: NewsEntity, v: JavaString): (r: NewsEntity)
    ensures r.byline == v && AgreeExcept(e, r, Byline)
  {
    e.(byline := v)
  }

  function SetPublishedDate(e: NewsEntity, v: JavaString): (r: NewsEntity)
    ensures r.publishedDate == v && AgreeExcept(e, r, PublishedDate)
  {
    e.(publishedDate := v)
  }

  function SetMediaEntityList(e: NewsEntity, v: Option<seq<MediaEntity>>): (r: NewsEntity)
    ensures r.mediaEntityList == v && AgreeExcept(e, r, MediaList)
  {
    e.(mediaEntityList := v)
  }

  // ---------------------------------------------------------------------------------------------
  // Conversion from JSON (Gson's fromJson for one element of a results array)

  /** The `multimedia` member: absent or null leaves the list null; an array converts element-wise. */
  function MediaListMember(m: map<string, Json>): (r: Result<Option<seq<MediaEntity>>>)
    ensures MultimediaKey in m && m[MultimediaKey] == JArray([]) ==> r == Ok(Some([]))
    ensures MultimediaKey in m && m[MultimediaKey].JString? ==> r.Failed?
  {
    if MultimediaKey !in m || m[MultimediaKey].JNull? then Ok(None)
    else if m[MultimediaKey].JArray? then
      var media :- ListFromJson(m[MultimediaKey].elems, MediaFromJson);
      Ok(Some(media))
    else Failed
  }

  function NewsFromJson(j: Json): (r: Result<NewsEntity>)
    ensures !j.JObject? ==> r.Failed?
    ensures r.Ok? ==> MediaListMember(j.members) == Ok(r.value.mediaEntityList)
  {
    match j
    case JObject(m) =>
      var section :- StringMember(m, SectionKey);
      var subsection :- StringMember(m, SubsectionKey);
      var title :- StringMember(m, TitleKey);
      var summary :- StringMember(m, SummaryKey);
      var url :- StringMember(m, NewsUrlKey);
      var byline :- StringMember(m, BylineKey);
      var publishedDate :- StringMember(m, PublishedDateKey);
      var media :- MediaListMember(m);
      Ok(NewsEntity(section, subsection, title, summary, url, byline, publishedDate, media))
    case _ => Failed
  }

  /** Gson's conversion of a whole JSON array into the list of news items, in order. */
  function NewsListFromJson(es: seq<Json>): (r: Result<seq<NewsEntity>>)
    ensures r.Ok? <==> forall i :: 0 <= i < |es| ==> NewsFromJson(es[i]).Ok?
    ensures r.Ok? ==> |r.value| == |es| && forall i :: 0 <= i < |es| ==> NewsFromJson(es[i]) == Ok(r.value[i])
  {
    ListFromJson(es, NewsFromJson)
  }

  /** The String half of the key table, paired with e's values. */
  function NewsStringFields(e: NewsEntity): seq<(string, JavaString)> {
    [(SectionKey, e.section), (SubsectionKey, e.subsection), (TitleKey, e.title), (SummaryKey, e.summary),
     (NewsUrlKey, e.url), (BylineKey, e.byline), (PublishedDateKey, e.publishedDate)]
  }

  /** The String members Gson would write for e, each only when it is not null. */
  function NewsScalarMembers(e: NewsEntity): map<string, Json> {
    PutStrings(map[], NewsStringFields(e))
  }

  /** The eight keys are distinct. */
  lemma NewsKeysDistinct(e: NewsEntity)
    ensures DistinctKeys(NewsStringFields(e))
    ensures forall i :: 0 <= i < |NewsStringFields(e)| ==> NewsStringFields(e)[i].0 != MultimediaKey
  {
    assert "multimedia"[0] != "subsection"[0];
  }

  /** The members the reference writer produces: the String members, then the media list written in order. */
  function NewsMembers(e: NewsEntity): (m: map<string, Json>)
    ensures MultimediaKey in m <==> e.mediaEntityList.Some?
  {
    var scalars := NewsScalarMembers(e);
    NewsKeysDistinct(e);
    PutStringsKeepsOthers(map[], NewsStringFields(e), MultimediaKey);
    match e.mediaEntityList
    case None => scalars
    case Some(media) => scalars[MultimediaKey := JArray(ListToJson(media, MediaToJson))]
  }

  /** The eight keys of a news item. */
  function NewsKeys(): set<string> {
    {SectionKey, SubsectionKey, TitleKey, SummaryKey, NewsUrlKey, BylineKey, PublishedDateKey, MultimediaKey}
  }

  /**
   * What Gson's default writer promises for a news item: each String member exactly when its field
   * is not null, the media list exactly when it is not null and then its items in order, and no
   * member outside the eight keys.
   */
  lemma NewsMembersWritten(e: NewsEntity)
    ensures var m := NewsMembers(e);
      && m.Keys <= NewsKeys()
      && StringWritten(m, SectionKey, e.section)
      && StringWritten(m, SubsectionKey, e.subsection)
      && StringWritten(m, TitleKey, e.title)
      && StringWritten(m, SummaryKey, e.summary)
      && StringWritten(m, NewsUrlKey, e.url)
      && StringWritten(m, BylineKey, e.byline)
      && StringWritten(m, PublishedDateKey, e.publishedDate)
      && (e.mediaEntityList.Some? ==>
            && m[MultimediaKey].JArray?
            && |m[MultimediaKey].elems| == |e.mediaEntityList.value|
            && forall i :: 0 <= i < |e.mediaEntityList.value| ==>
                 m[MultimediaKey].elems[i] == MediaToJson(e.mediaEntityList.value[i]))
  {
    var fields := NewsStringFields(e);
    var scalars := NewsScalarMembers(e);
    NewsKeysDistinct(e);
    PutStringsKeysWithin(map[], fields, NewsKeys());
    forall i | 0 <= i < |fields| ensures StringWritten(scalars, fields[i].0, fields[i].1) {
      PutStringsReadBack(map[], fields, i);
    }
    assert fields[0].0 == SectionKey && fields[1].0 == SubsectionKey && fields[2].0 == TitleKey;
    assert fields[3].0 == SummaryKey && fields[4].0 == NewsUrlKey && fields[5].0 == BylineKey;
    assert fields[6].0 == PublishedDateKey;
  }

  /**
   * A reference writer for a news item, in the shape of Gson's default toJson. The app itself never
   * writes an entity; it caches the server's own array. The writer is the partner of NewsFromJson.
   */
  function NewsToJson(e: NewsEntity): (j: Json)
    ensures j.JObject? && j.members.Keys <= NewsKeys()
    ensures StringWritten(j.members, SectionKey, e.section) && StringWritten(j.members, SubsectionKey, e.subsection)
    ensures StringWritten(j.members, TitleKey, e.title) && StringWritten(j.members, SummaryKey, e.summary)
    ensures StringWritten(j.members, NewsUrlKey, e.url) && StringWritten(j.members, BylineKey, e.byline)
    ensures StringWritten(j.members, PublishedDateKey, e.publishedDate)
    ensures MultimediaKey in j.members <==> e.mediaEntityList.Some?
    ensures e.mediaEntityList.Some? ==>
      && j.members[MultimediaKey].JArray?
      && |j.members[MultimediaKey].elems| == |e.mediaEntityList.value|
      && forall i :: 0 <= i < |e.mediaEntityList.value| ==>
           j.members[MultimediaKey].elems[i] == MediaToJson(e.mediaEntityList.value[i])
  {
    NewsMembersWritten(e);
    JObject(NewsMembers(e))
  }

  /** Every String member written for e reads back as the field it came from. */
  lemma NewsMembersReadBackScalars(e: NewsEntity)
    ensures var m := NewsMembers(e);
      && StringMember(m, SectionKey) == Ok(e.section)
      && StringMember(m, SubsectionKey) == Ok(e.subsection)
      && StringMember(m, TitleKey) == Ok(e.title)
      && StringMember(m, SummaryKey) == Ok(e.summary)
      && StringMember(m, NewsUrlKey) == Ok(e.url)
      && StringMember(m, BylineKey) == Ok(e.byline)
      && StringMember(m, PublishedDateKey) == Ok(e.publishedDate)
  {
    var fields := NewsStringFields(e);
    NewsKeysDistinct(e);
    forall i | 0 <= i < |fields| ensures StringMember(NewsMembers(e), fields[i].0) == Ok(fields[i].1) {
      PutStringsReadBack(map[], fields, i);
    }
    assert fields[0].0 == SectionKey && fields[1].0 == SubsectionKey && fields[2].0 == TitleKey;
    assert fields[3].0 == SummaryKey && fields[4].0 == NewsUrlKey && fields[5].0 == BylineKey;
    assert fields[6].0 == PublishedDateKey;
  }

  lemma NewsMembersReadBackMedia(e: NewsEntity)
    ensures MediaListMember(NewsMembers(e)) == Ok(e.mediaEntityList)
  {
    if e.mediaEntityList.Some? {
      var media := e.mediaEntityList.value;
      forall i | 0 <= i < |media| ensures MediaFromJson(MediaToJson(media[i])) == Ok(media[i]) {
        MediaRoundTrip(media[i]);
      }
      ListRoundTrip(media, MediaToJson, MediaFromJson);
    }
  }

  /** Reading back what the key table writes gives the same news item, media list included and in order. */
  lemma NewsRoundTrip(e: NewsEntity)
    ensures NewsFromJson(NewsToJson(e)) == Ok(e)
  {
    NewsMembersReadBackScalars(e);
    NewsMembersReadBackMedia(e);
  }

  // ---------------------------------------------------------------------------------------------
  // equals

  /** The argument of `equals(Object obj)`: a NewsEntity, or anything else (null included). */
  datatype JavaObject = NewsObject(news: NewsEntity) | OtherObject

  /** The seven String fields are not null. */
  predicate ScalarsPresent(e: NewsEntity) {
    && e.section.Some? && e.subsection.Some? && e.title.Some? && e.summary.Some?
    && e.url.Some? && e.byline.Some? && e.publishedDate.Some?
  }

  /** Nothing `equals` dereferences on the receiver is null. */
  predicate Complete(e: NewsEntity) {
    && ScalarsPresent(e)
    && e.mediaEntityList.Some?
    && forall i :: 0 <= i < |e.mediaEntityList.value| ==> MediaComplete(e.mediaEntityList.value[i])
  }

  /** areMediaValuesEqual: the eight fields compared in the source's order, with `&&` short-circuiting. */
  function AreMediaValuesEqual(m1: MediaEntity, m2: MediaEntity): (r: JavaBool)
    ensures MediaComplete(m1) ==> r == Value(m1 == m2)
    ensures m1.copyright.None? ==> r.NullPointer?
  {
    AndThen(StringEquals(m1.copyright, m2.copyright),
    AndThen(StringEquals(m1.format, m2.format),
    AndThen(Value(m1.height == m2.height),
    AndThen(StringEquals(m1.caption, m2.caption),
    AndThen(Value(m1.width == m2.width),
    AndThen(StringEquals(m1.subType, m2.subType),
    AndThen(StringEquals(m1.mediaType, m2.mediaType),
            StringEquals(m1.url, m2.url))))))))
  }

  /** The loop over media indexes from i on: the first pair that is unequal (or throws) decides. */
  function MediaListsEqualFrom(a: seq<MediaEntity>, b: seq<MediaEntity>, i: nat): (r: JavaBool)
    requires |a| == |b| && i <= |a|
    ensures r == Value(true) <==> forall k :: i <= k < |a| ==> AreMediaValuesEqual(a[k], b[k]) == Value(true)
    ensures r == Value(false) ==> exists k :: i <= k < |a| && AreMediaValuesEqual(a[k], b[k]) == Value(false)
    ensures r.NullPointer? ==> exists k :: i <= k < |a| && AreMediaValuesEqual(a[k], b[k]).NullPointer?
    decreases |a| - i
  {
    if i == |a| then Value(true)
    else
      match AreMediaValuesEqual(a[i], b[i])
      case NullPointer => NullPointer
      case Value(same) => if same then MediaListsEqualFrom(a, b, i + 1) else Value(false)
  }

  /** The seven scalar comparisons, in the source's order, short-circuiting. */
  function ScalarsEqual(e: NewsEntity, n: NewsEntity): (r: JavaBool)
    ensures ScalarsPresent(e) ==> r.Value?
  {
    AndThen(StringEquals(e.publishedDate, n.publishedDate),
    AndThen(StringEquals(e.section, n.section),
    AndThen(StringEquals(e.subsection, n.subsection),
    AndThen(StringEquals(e.summary, n.summary),
    AndThen(StringEquals(e.title, n.title),
    AndThen(StringEquals(e.byline, n.byline),
            StringEquals(e.url, n.url)))))))
  }

  /** NewsEntity.equals(obj): what it returns, or NullPointer where it would throw. */
  function Equals(e: NewsEntity, obj: JavaObject): (r: JavaBool)
    ensures obj.OtherObject? ==> r == Value(false)
  {
    match obj
    case OtherObject => Value(false)
    case NewsObject(n) =>
      match ScalarsEqual(e, n)
      case NullPointer => NullPointer
      case Value(same) =>
        if !same then Value(false)
        else if n.mediaEntityList.None? || e.mediaEntityList.None? then NullPointer
        else if |n.mediaEntityList.value| != |e.mediaEntityList.value| then Value(false)
        else MediaListsEqualFrom(e.mediaEntityList.value, n.mediaEntityList.value, 0)
  }

  /** With a complete left side, the media loop from i decides whether the two suffixes are equal. */
  lemma {:induction false} MediaListsEqualFromIsSuffixEquality(a: seq<MediaEntity>, b: seq<MediaEntity>, i: nat)
    requires |a| == |b| && i <= |a|
    requires forall k :: 0 <= k < |a| ==> MediaComplete(a[k])
    ensures MediaListsEqualFrom(a, b, i) == Value(a[i..] == b[i..])
    decreases |a| - i
  {
    if i < |a| {
      MediaListsEqualFromIsSuffixEquality(a, b, i + 1);
      assert a[i..] == [a[i]] + a[i + 1..];
      assert b[i..] == [b[i]] + b[i + 1..];
    }
  }

  /**
   * On a receiver with nothing null and an argument with a media list, `equals` never throws and
   * is exactly structural equality of the two values.
   */
  lemma EqualsIsStructural(e: NewsEntity, n: NewsEntity)
    requires Complete(e) && n.mediaEntityList.Some?
    ensures Equals(e, NewsObject(n)) == Value(e == n)
  {
    var a, b := e.mediaEntityList.value, n.mediaEntityList.value;
    if ScalarsEqual(e, n) == Value(true) && |a| == |b| {
      MediaListsEqualFromIsSuffixEquality(a, b, 0);
      assert a[0..] == a && b[0..] == b;
    }
  }

  /**
   * `equals` is true iff the seven scalar fields are equal, the media lists have the same length and
   * are pairwise equal by areMediaValuesEqual.
   */
  lemma EqualsIffFieldsAndMediaEqual(e: NewsEntity, n: NewsEntity)
    requires Complete(e) && n.mediaEntityList.Some?
    ensures Equals(e, NewsObject(n)) == Value(true) <==>
      && e.publishedDate == n.publishedDate && e.section == n.section && e.subsection == n.subsection
      && e.summary == n.summary && e.title == n.title && e.byline == n.byline && e.url == n.url
      && |e.mediaEntityList.value| == |n.mediaEntityList.value|
      && forall i :: 0 <= i < |e.mediaEntityList.value| ==>
           AreMediaValuesEqual(e.mediaEntityList.value[i], n.mediaEntityList.value[i]) == Value(true)
  {
    EqualsIsStructural(e, n);
    var a, b := e.mediaEntityList.value, n.mediaEntityList.value;
    if |a| == |b| && forall i :: 0 <= i < |a| ==> AreMediaValuesEqual(a[i], b[i]) == Value(true) {
      assert a == b;
    }
  }

  /** A difference in any one String field makes `equals` false (the receiver's Strings being non-null). */
  lemma ScalarDifferenceBreaksEquality(e: NewsEntity, n: NewsEntity)
    requires ScalarsPresent(e)
    requires || e.publishedDate != n.publishedDate || e.section != n.section || e.subsection != n.subsection
             || e.summary != n.summary || e.title != n.title || e.byline != n.byline || e.url != n.url
    ensures Equals(e, NewsObject(n)) == Value(false)
  {
  }

  /** Media lists of different lengths are never equal. */
  lemma MediaCountDifferenceBreaksEquality(e: NewsEntity, n: NewsEntity)
    requires ScalarsPresent(e) && e.mediaEntityList.Some? && n.mediaEntityList.Some?
    requires |e.mediaEntityList.value| != |n.mediaEntityList.value|
    ensures Equals(e, NewsObject(n)) == Value(false)
  {
  }

  /** Media are compared by index: swapping two different media items breaks equality. */
  lemma ReorderedMediaBreaksEquality(e: NewsEntity, i: nat, j: nat)
    requires Complete(e)
    requires i < j < |e.mediaEntityList.value|
    requires e.mediaEntityList.value[i] != e.mediaEntityList.value[j]
    ensures var a := e.mediaEntityList.value;
      Equals(e, NewsObject(e.(mediaEntityList := Some(a[i := a[j]][j := a[i]])))) == Value(false)
  {
    var a := e.mediaEntityList.value;
    var swapped := a[i := a[j]][j := a[i]];
    EqualsIsStructural(e, e.(mediaEntityList := Some(swapped)));
    assert swapped[i] != a[i];
  }

  lemma EqualsReflexive(e: NewsEntity)
    requires Complete(e)
    ensures Equals(e, NewsObject(e)) == Value(true)
  {
    EqualsIsStructural(e, e);
  }

  lemma EqualsSymmetric(e: NewsEntity, n: NewsEntity)
    requires Complete(e) && Complete(n)
    ensures Equals(e, NewsObject(n)) == Equals(n, NewsObject(e))
  {
    EqualsIsStructural(e, n);
    EqualsIsStructural(n, e);
  }

  /** The first comparison dereferences the receiver's publishedDate: a null there throws. */
  lemma NullPublishedDateThrows(e: NewsEntity, n: NewsEntity)
    requires e.publishedDate.None?
    ensures Equals(e, NewsObject(n)) == NullPointer
  {
  }
}

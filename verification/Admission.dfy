/** Catalogue admission, written twice: as a check of one series in the application, and as the filters of
    a database query. */
module Admission {
  import opened Wrappers
  import opened Patterns

  type Instant = int

  const PLATFORMS := ["android", "ios"]
  const STOREFRONTS := ["google_play", "app_store"]

  /** The two long code lists of the patterns. */
  datatype Vocabulary = Vocabulary(territories: seq<string>, languages: seq<string>)

  ghost predicate VocabularyOk(v: Vocabulary) {
    PlainCodes(v.territories) && PlainCodes(v.languages)
  }

  datatype Context = Context(
    country: string, platform: string, storefront: string, language: string, segment: Option<string>)

  datatype Translation = Translation(language: string, title: string, synopsis: string)

  /** `publicId` is the place of the public identifier in the database's collation. */
  datatype Series = Series(
    pk: nat, published: bool, takedown: bool, originalLanguage: string,
    territories: seq<Element>, platforms: seq<Element>, storefronts: seq<Element>, languages: seq<Element>,
    selfOwned: bool, provenance: string, promotionalUseApproved: bool,
    rank: int, publicId: nat, segments: set<string>, title: string, synopsis: string, translations: seq<Translation>)

  datatype Permissions = Permissions(
    promotionalClip: bool, freeAccess: bool, rewardedAd: bool, coinAccess: bool, paidPromotion: bool)

  datatype Right = Right(
    series: nat, takedown: bool, drmRequired: bool, permissions: Permissions,
    licensor: string, contract: string, share: string, startsAt: Instant, endsAt: Option<Instant>,
    territoryAllow: seq<Element>, territoryDeny: seq<Element>, platforms: seq<Element>, storefronts: seq<Element>,
    languages: seq<Element>, originalLanguages: seq<Element>, subtitleLanguages: seq<Element>,
    dubLanguages: seq<Element>)

  predicate Blank(s: string) {
    forall i :: 0 <= i < |s| ==>
        s[i] == ' ' || s[i] == '\t' || s[i] == '\n' || s[i] == '\r' || s[i] == 11 as char || s[i] == 12 as char
  }

  /** A unique language per translation is a constraint of the table. */
  ghost predicate OnePerLanguage(translations: seq<Translation>) {
    forall i, j :: 0 <= i < j < |translations| ==> translations[i].language != translations[j].language
  }

  predicate Contains(values: seq<Element>, code: string) {
    Some(code) in values
  }

  // Filters of a query

  function Filter<T(!new)>(rows: seq<T>, keep: T -> bool): (kept: seq<T>)
    ensures forall row :: row in kept <==> row in rows && keep(row)
    ensures multiset(kept) <= multiset(rows)
  {
    if rows == [] then []
    else
      assert rows == [rows[0]] + rows[1..];
      (if keep(rows[0]) then [rows[0]] else []) + Filter(rows[1..], keep)
  }

  /** A validated array column: its name, its codes, and whether it may be empty. */
  datatype Field = Field(name: string, codes: seq<string>, empty: bool)

  ghost predicate PlainFields(fields: seq<Field>) {
    forall i :: 0 <= i < |fields| ==> PlainCodes(fields[i].codes)
  }

  ghost predicate InScope<T(!new)>(row: T, column: (T, string) -> seq<Element>, fields: seq<Field>)
  {
    forall i :: 0 <= i < |fields| ==> FieldInScope(row, column, fields[i])
  }

  predicate FieldInScope<T(!new)>(row: T, column: (T, string) -> seq<Element>, field: Field) {
    field.codes != [] && ValidScope(column(row, field.name), field.codes, field.empty)
  }

  lemma OneMoreField<T(!new)>(row: T, column: (T, string) -> seq<Element>, fields: seq<Field>, i: nat)
    requires PlainFields(fields) && i < |fields|
    ensures InScope(row, column, fields[..i + 1]) <==>
        InScope(row, column, fields[..i]) && FieldMatches(row, column, fields[i])
  {
    var field := fields[i];
    assert FieldInScope(row, column, field) <==> FieldMatches(row, column, field) by {
      ArrayPatternIsScope(column(row, field.name), field.codes, field.empty);
    }
    ScopeGrows(row, column, fields[..i], field);
    assert fields[..i + 1] == fields[..i] + [field];
  }

  lemma ScopeGrows<T(!new)>(row: T, column: (T, string) -> seq<Element>, fields: seq<Field>, field: Field)
    ensures InScope(row, column, fields + [field]) <==> InScope(row, column, fields) && FieldInScope(row, column, field)
  {
    var longer := fields + [field];
    assert longer[|fields|] == field;
    if InScope(row, column, longer) {
      forall k | 0 <= k < |fields| ensures FieldInScope(row, column, fields[k]) {
        assert longer[k] == fields[k];
      }
    }
  }

  predicate FieldMatches<T(!new)>(row: T, column: (T, string) -> seq<Element>, field: Field)
    requires field.codes != []
  {
    Matches(ArrayPattern(field.codes, field.empty), ArrayText(column(row, field.name)))
  }

  /** Adds one pattern filter per field. */
  method ValidatedArrays<T(!new)>(queryset: seq<T>, column: (T, string) -> seq<Element>, fields: seq<Field>)
    returns (validated: seq<T>)
    requires PlainFields(fields)
    ensures forall row :: row in validated <==> row in queryset && InScope(row, column, fields)
    ensures multiset(validated) <= multiset(queryset)
  {
    validated := queryset;
    for i := 0 to |fields|
      invariant forall row :: row in validated <==> row in queryset && InScope(row, column, fields[..i])
      invariant multiset(validated) <= multiset(queryset)
    {
      var field := fields[i];
      forall row ensures
        InScope(row, column, fields[..i + 1]) <==> InScope(row, column, fields[..i]) && FieldMatches(row, column, field)
      {
        OneMoreField(row, column, fields, i);
      }
      validated := Filter(validated, row => FieldMatches(row, column, field));
    }
    assert fields[..|fields|] == fields;
  }

  // Rights, queried by both sides

  function RightColumn(r: Right, name: string): seq<Element> {
    match name
    case "territory_allowlist" => r.territoryAllow
    case "territory_denylist" => r.territoryDeny
    case "platforms" => r.platforms
    case "storefronts" => r.storefronts
    case "languages" => r.languages
    case "original_languages" => r.originalLanguages
    case "subtitle_languages" => r.subtitleLanguages
    case _ => r.dubLanguages
  }

  function RightFields(v: Vocabulary): seq<Field> {
    [Field("territory_allowlist", v.territories, false), Field("territory_denylist", v.territories, true),
     Field("platforms", PLATFORMS, false), Field("storefronts", STOREFRONTS, false),
     Field("languages", v.languages, false), Field("original_languages", v.languages, false),
     Field("subtitle_languages", v.languages, true), Field("dub_languages", v.languages, true)]
  }

  lemma PlatformsArePlain()
    ensures PlainCodes(PLATFORMS)
  {
    assert |"android"| == 7 && |"ios"| == 3;
    WordlikeIsPlain("android");
    WordlikeIsPlain("ios");
    PairIsPlain("android", "ios");
  }

  lemma StorefrontsArePlain()
    ensures PlainCodes(STOREFRONTS)
  {
    GooglePlayIsPlain();
    AppStoreIsPlain();
    PairIsPlain("google_play", "app_store");
  }

  lemma GooglePlayIsPlain()
    ensures !NeedsQuotes("google_play")
  {
    assert |"google_play"| == 11;
    WordlikeIsPlain("google_play");
  }

  lemma AppStoreIsPlain()
    ensures !NeedsQuotes("app_store")
  {
    assert |"app_store"| == 9;
    WordlikeIsPlain("app_store");
  }

  predicate Licensed(context: Context, now: Instant, r: Right) {
    && !r.takedown && !r.drmRequired
    && r.permissions.promotionalClip && r.permissions.freeAccess && r.permissions.rewardedAd
    && r.permissions.coinAccess && r.permissions.paidPromotion
    && !Blank(r.licensor) && !Blank(r.contract) && !Blank(r.share)
    && r.startsAt <= now && (r.endsAt.Some? ==> r.endsAt.value > now)
    && Contains(r.territoryAllow, context.country) && !Contains(r.territoryDeny, context.country)
    && Contains(r.platforms, context.platform) && Contains(r.storefronts, context.storefront)
    && Contains(r.languages, context.language)
  }

  predicate Covers(context: Context, now: Instant, source: string, captions: Option<string>, r: Right) {
    && Licensed(context, now, r)
    && Contains(r.originalLanguages, source) && Contains(r.languages, source)
    && (Contains(r.originalLanguages, context.language) || Contains(r.subtitleLanguages, context.language))
    && (captions.Some? ==> Contains(r.subtitleLanguages, captions.value) && Contains(r.languages, captions.value))
  }

  /** The right is well formed, in force and covers the series' original language and the launch context. */
  ghost predicate Matching(
    v: Vocabulary, context: Context, now: Instant, source: string, captions: Option<string>, r: Right)
    requires VocabularyOk(v)
  {
    Covers(context, now, source, captions, r) && InScope(r, RightColumn, RightFields(v))
  }

  method MatchingRights(
    v: Vocabulary, context: Context, now: Instant, source: string, captions: Option<string>, rights: seq<Right>)
    returns (matching: seq<Right>)
    requires VocabularyOk(v)
    ensures forall r :: r in matching <==> r in rights && Matching(v, context, now, source, captions, r)
  {
    PlatformsArePlain();
    StorefrontsArePlain();
    matching := Filter(rights, (r: Right) => Covers(context, now, source, captions, r));
    matching := ValidatedArrays(matching, RightColumn, RightFields(v));
  }

  // The check of one series

  ghost predicate HasRight(
    v: Vocabulary, context: Context, now: Instant, s: Series, captions: Option<string>, rights: seq<Right>)
    requires VocabularyOk(v)
  {
    exists r :: r in rights && r.series == s.pk && Matching(v, context, now, s.originalLanguage, captions, r)
  }

  /** What admission means, for a series in a launch context. */
  ghost predicate Admitted(
    v: Vocabulary, context: Option<Context>, now: Instant, s: Series, captions: Option<string>, rights: seq<Right>)
    requires VocabularyOk(v)
  {
    && context.Some? && !s.takedown
    && InScope(s, SeriesColumn, SeriesFields(v))
    && Contains(s.territories, context.value.country) && Contains(s.platforms, context.value.platform)
    && Contains(s.storefronts, context.value.storefront) && Contains(s.languages, context.value.language)
    && s.originalLanguage in v.languages && (captions.Some? ==> captions.value in v.languages)
    && (context.value.segment.Some? ==> context.value.segment.value in s.segments)
    && if s.selfOwned then !Blank(s.provenance) && s.promotionalUseApproved
       else HasRight(v, context.value, now, s, captions, rights)
  }

  function SeriesColumn(s: Series, name: string): seq<Element> {
    match name
    case "distribution_territories" => s.territories
    case "distribution_platforms" => s.platforms
    case "distribution_storefronts" => s.storefronts
    case _ => s.languages
  }

  function SeriesFields(v: Vocabulary): seq<Field> {
    [Field("distribution_territories", v.territories, false), Field("distribution_platforms", PLATFORMS, false),
     Field("distribution_storefronts", STOREFRONTS, false), Field("distribution_languages", v.languages, false)]
  }

  /** The values of each scope are valid and contain the selected code. */
  predicate Selected(values: seq<Element>, codes: seq<string>, code: string)
    requires codes != []
  {
    ValidScope(values, codes, false) && Contains(values, code)
  }

  method SeriesIsAdmitted(
    v: Vocabulary, context: Option<Context>, now: Instant, s: Series, captions: Option<string>, rights: seq<Right>)
    returns (admitted: bool)
    requires VocabularyOk(v)
    ensures admitted <==> Admitted(v, context, now, s, captions, rights)
  {
    if context.None? || s.takedown {
      return false;
    }
    var c := context.value;
    ScopesAreFields(v, s);
    if !Selected(s.territories, v.territories, c.country) || !Selected(s.platforms, PLATFORMS, c.platform)
       || !Selected(s.storefronts, STOREFRONTS, c.storefront) || !Selected(s.languages, v.languages, c.language) {
      return false;
    }
    AnyOfMatches(v.languages, s.originalLanguage);
    if !Matches(AnyOf(v.languages), s.originalLanguage) {
      return false;
    }
    if captions.Some? {
      AnyOfMatches(v.languages, captions.value);
      if !Matches(AnyOf(v.languages), captions.value) {
        return false;
      }
    }
    if c.segment.Some? && c.segment.value !in s.segments {
      return false;
    }
    if s.selfOwned {
      return !Blank(s.provenance) && s.promotionalUseApproved;
    }
    var matching := MatchingRights(v, c, now, s.originalLanguage, captions, rights);
    return exists r :: r in matching && r.series == s.pk;
  }

  lemma ScopesAreFields(v: Vocabulary, s: Series)
    requires VocabularyOk(v)
    ensures InScope(s, SeriesColumn, SeriesFields(v)) <==>
      && ValidScope(s.territories, v.territories, false) && ValidScope(s.platforms, PLATFORMS, false)
      && ValidScope(s.storefronts, STOREFRONTS, false) && ValidScope(s.languages, v.languages, false)
  {
    var fields := SeriesFields(v);
    assert InScope(s, SeriesColumn, fields) <==>
      && FieldInScope(s, SeriesColumn, fields[0]) && FieldInScope(s, SeriesColumn, fields[1])
      && FieldInScope(s, SeriesColumn, fields[2]) && FieldInScope(s, SeriesColumn, fields[3]);
  }

  // Metadata shown

  predicate Complete(language: string, t: Translation) {
    t.language == language && !Blank(t.title) && !Blank(t.synopsis)
  }

  /** With one translation per language the metadata shown does not depend on the order of the rows. */
  lemma MetadataIsUnique(s: Series, language: string, a: Translation, b: Translation)
    requires OnePerLanguage(s.translations) && a in s.translations && b in s.translations
    requires Complete(language, a) && Complete(language, b)
    ensures a == b
  {
    var i :| 0 <= i < |s.translations| && s.translations[i] == a;
    var j :| 0 <= j < |s.translations| && s.translations[j] == b;
    assert i < j || j < i || i == j;
  }

  /** Direct English, or the first complete translation into the launch language. */
  method CatalogMetadata(context: Option<Context>, s: Series) returns (metadata: Option<(string, string)>)
    ensures metadata.Some? <==> HasMetadata(context, s)
    ensures metadata.Some? && context.value.language == "en" ==> metadata.value == (s.title, s.synopsis)
    ensures metadata.Some? && context.value.language != "en" ==>
      exists t :: t in s.translations && Complete(context.value.language, t) && metadata.value == (t.title, t.synopsis)
    ensures metadata.Some? && context.value.language != "en" && OnePerLanguage(s.translations) ==>
      forall t :: t in s.translations && Complete(context.value.language, t) ==> metadata.value == (t.title, t.synopsis)
  {
    if context.None? {
      return None;
    }
    if context.value.language == "en" {
      return if !Blank(s.title) && !Blank(s.synopsis) then Some((s.title, s.synopsis)) else None;
    }
    for i := 0 to |s.translations|
      invariant forall k :: 0 <= k < i ==> !Complete(context.value.language, s.translations[k])
    {
      var t := s.translations[i];
      if Complete(context.value.language, t) {
        forall other
          | OnePerLanguage(s.translations) && other in s.translations && Complete(context.value.language, other)
          ensures other == t
        {
          MetadataIsUnique(s, context.value.language, t, other);
        }
        return Some((t.title, t.synopsis));
      }
    }
    return None;
  }

  predicate HasMetadata(context: Option<Context>, s: Series) {
    && context.Some?
    && if context.value.language == "en" then !Blank(s.title) && !Blank(s.synopsis)
       else exists t :: t in s.translations && Complete(context.value.language, t)
  }

  // The query

  predicate BaseFilters(v: Vocabulary, c: Context, s: Series)
    requires v.languages != []
  {
    && s.published && !s.takedown
    && Matches(AnyOf(v.languages), s.originalLanguage)
    && Contains(s.territories, c.country) && Contains(s.platforms, c.platform)
    && Contains(s.storefronts, c.storefront) && Contains(s.languages, c.language)
  }

  predicate NotLater(a: Series, b: Series) {
    a.rank < b.rank || (a.rank == b.rank && a.publicId <= b.publicId)
  }

  ghost predicate Ordered(rows: seq<Series>) {
    forall i, j :: 0 <= i < j < |rows| ==> NotLater(rows[i], rows[j])
  }

  function Insert(rows: seq<Series>, row: Series): (r: seq<Series>)
    ensures multiset(r) == multiset(rows) + multiset{row}
  {
    if rows == [] || NotLater(rows[|rows| - 1], row) then rows + [row]
    else
      assert rows == rows[..|rows| - 1] + [rows[|rows| - 1]];
      Insert(rows[..|rows| - 1], row) + [rows[|rows| - 1]]
  }

  lemma {:induction false} InsertKeepsOrder(rows: seq<Series>, row: Series)
    requires Ordered(rows)
    ensures Ordered(Insert(rows, row))
  {
    if rows == [] || NotLater(rows[|rows| - 1], row) {
    } else {
      var last := |rows| - 1;
      InsertKeepsOrder(rows[..last], row);
      var r := Insert(rows[..last], row);
      InsertedMembers(rows[..last], row);
      forall i | 0 <= i < |r| ensures NotLater(r[i], rows[last]) {
        assert r[i] in r;
      }
    }
  }

  lemma InsertedMembers(rows: seq<Series>, row: Series)
    ensures forall other :: other in Insert(rows, row) <==> other in rows || other == row
  {
    forall other ensures other in Insert(rows, row) <==> other in rows || other == row {
      assert other in Insert(rows, row) <==> other in multiset(Insert(rows, row));
      assert other in rows <==> other in multiset(rows);
    }
  }

  /** By editorial rank and then by public identifier. */
  method OrderBy(rows: seq<Series>) returns (ordered: seq<Series>)
    ensures multiset(ordered) == multiset(rows) && Ordered(ordered)
    ensures forall s :: s in ordered <==> s in rows
  {
    ordered := [];
    for i := 0 to |rows|
      invariant multiset(ordered) == multiset(rows[..i]) && Ordered(ordered)
    {
      InsertKeepsOrder(ordered, rows[i]);
      ordered := Insert(ordered, rows[i]);
      assert rows[..i + 1] == rows[..i] + [rows[i]];
    }
    assert rows[..|rows|] == rows;
    forall s ensures s in ordered <==> s in rows {
      assert s in ordered <==> s in multiset(ordered);
      assert s in rows <==> s in multiset(rows);
    }
  }

  /** The filters on publication, scope and rights. */
  method SelectInScope(v: Vocabulary, c: Context, now: Instant, table: seq<Series>, rights: seq<Right>)
    returns (selected: seq<Series>)
    requires VocabularyOk(v)
    ensures forall s :: s in selected <==>
      && s in table && s.published && !s.takedown && s.originalLanguage in v.languages
      && Contains(s.territories, c.country) && Contains(s.platforms, c.platform)
      && Contains(s.storefronts, c.storefront) && Contains(s.languages, c.language)
      && (if s.selfOwned then !Blank(s.provenance) && s.promotionalUseApproved
          else HasRight(v, c, now, s, None, rights))
      && InScope(s, SeriesColumn, SeriesFields(v))
    ensures multiset(selected) <= multiset(table)
  {
    selected := Filter(table, (s: Series) => BaseFilters(v, c, s));
    forall s: Series ensures Matches(AnyOf(v.languages), s.originalLanguage) <==> s.originalLanguage in v.languages {
      AnyOfMatches(v.languages, s.originalLanguage);
    }
    selected := FilterOwned(v, c, now, selected, rights);
    PlatformsArePlain();
    StorefrontsArePlain();
    selected := ValidatedArrays(selected, SeriesColumn, SeriesFields(v));
  }

  /** The filters on the audience segment and on complete metadata. */
  method FilterShown(context: Option<Context>, queryset: seq<Series>) returns (shown: seq<Series>)
    requires context.Some?
    ensures forall s :: s in shown <==>
      && s in queryset && HasMetadata(context, s)
      && (context.value.segment.Some? ==> context.value.segment.value in s.segments)
    ensures multiset(shown) <= multiset(queryset)
  {
    shown := queryset;
    if context.value.segment.Some? {
      shown := Filter(shown, (s: Series) => context.value.segment.value in s.segments);
    }
    shown := Filter(shown, (s: Series) => HasMetadata(context, s));
  }

  /** Filter by filter, as the query is built. A right is looked up for the row's own language. */
  method SelectSeries(v: Vocabulary, context: Option<Context>, now: Instant, table: seq<Series>, rights: seq<Right>)
    returns (eligible: seq<Series>)
    requires VocabularyOk(v)
    ensures forall s :: s in eligible <==>
      s in table && s.published && Admitted(v, context, now, s, None, rights) && HasMetadata(context, s)
    ensures multiset(eligible) <= multiset(table)
  {
    if context.None? {
      return [];
    }
    eligible := SelectInScope(v, context.value, now, table, rights);
    eligible := FilterShown(context, eligible);
  }

  /** The query: each selected row once, in catalogue order. */
  method EligibleSeries(v: Vocabulary, context: Option<Context>, now: Instant, table: seq<Series>, rights: seq<Right>)
    returns (eligible: seq<Series>)
    requires VocabularyOk(v)
    ensures forall s :: s in eligible <==>
      s in table && s.published && Admitted(v, context, now, s, None, rights) && HasMetadata(context, s)
    ensures multiset(eligible) <= multiset(table) && Ordered(eligible)
  {
    eligible := SelectSeries(v, context, now, table, rights);
    eligible := OrderBy(eligible);
  }

  /** Self-owned series with their approvals, and others with a matching right. */
  method FilterOwned(v: Vocabulary, c: Context, now: Instant, queryset: seq<Series>, rights: seq<Right>)
    returns (kept: seq<Series>)
    requires VocabularyOk(v)
    ensures forall s :: s in kept <==>
      s in queryset
      && if s.selfOwned then !Blank(s.provenance) && s.promotionalUseApproved
         else HasRight(v, c, now, s, None, rights)
    ensures multiset(kept) <= multiset(queryset)
  {
    kept := [];
    for i := 0 to |queryset|
      invariant forall s :: s in kept <==>
        s in queryset[..i]
        && if s.selfOwned then !Blank(s.provenance) && s.promotionalUseApproved
           else HasRight(v, c, now, s, None, rights)
      invariant multiset(kept) <= multiset(queryset[..i])
    {
      assert queryset[..i + 1] == queryset[..i] + [queryset[i]];
      var s := queryset[i];
      var matching := MatchingRights(v, c, now, s.originalLanguage, None, rights);
      var has := exists r :: r in matching && r.series == s.pk;
      assert has <==> HasRight(v, c, now, s, None, rights);
      if if s.selfOwned then !Blank(s.provenance) && s.promotionalUseApproved else has {
        kept := kept + [s];
      }
    }
    assert queryset[..|queryset|] == queryset;
  }

  /** Admission with a captions language asks for more: whatever passes it is admitted without one. */
  lemma CaptionsOnlyNarrow(
    v: Vocabulary, context: Option<Context>, now: Instant, s: Series, captions: string, rights: seq<Right>)
    requires VocabularyOk(v) && Admitted(v, context, now, s, Some(captions), rights)
    ensures Admitted(v, context, now, s, None, rights)
  {
    if !s.selfOwned {
      var r :|
        r in rights && r.series == s.pk && Matching(v, context.value, now, s.originalLanguage, Some(captions), r);
      assert Matching(v, context.value, now, s.originalLanguage, None, r);
    }
  }

  /** An admitted series always carries the launch language and its scope codes are all known, so no text
      trick in an array column - a quoted element, a null, a comma - can pass for a code. */
  lemma AdmittedCodesAreKnown(v: Vocabulary, context: Option<Context>, now: Instant, s: Series, rights: seq<Right>)
    requires VocabularyOk(v) && Admitted(v, context, now, s, None, rights)
    ensures forall e :: e in s.languages ==> e.Some? && e.value in v.languages
    ensures context.value.language in v.languages && context.value.platform in PLATFORMS
  {
    ScopesAreFields(v, s);
    ScopeByCodes(s.languages, v.languages, false);
    ScopeByCodes(s.platforms, PLATFORMS, false);
  }
}

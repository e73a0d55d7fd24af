/** Identifier sanitisation of db/db-utils.go: names are lower-cased, stripped of everything
    outside `a`..`z`, and refused when fewer than three letters remain; the database id is
    the three sanitised names joined by `-`. */
module DbUtils {
  import opened Wrappers
  import opened Text

  const MinSanitizedLength: nat := 3

  datatype SanitizeError = TooShort(name: string, sanitized: string)

  /** `sanitizedName`. */
  function SanitizedName(name: string): (r: Result<string, SanitizeError>)
    ensures r.Success? <==> |KeepLowerAlpha(ToLower(name))| >= MinSanitizedLength
    ensures r.Success? ==> AllLowerAlpha(r.value) && |r.value| >= MinSanitizedLength
    ensures r.Success? ==> r.value == KeepLowerAlpha(ToLower(name))
    ensures r.Failure? ==> r.error == TooShort(name, KeepLowerAlpha(ToLower(name)))
  {
    var s := KeepLowerAlpha(ToLower(name));
    if |s| < MinSanitizedLength then Failure(TooShort(name, s)) else Success(s)
  }

  /** A successful result keeps each `a`..`z` letter of the lower-cased name exactly as
      often as it occurs there, and nothing else. */
  lemma SanitizedNameLetters(name: string, c: char)
    requires SanitizedName(name).Success?
    ensures Count(SanitizedName(name).value, c) == if IsLowerAlpha(c) then Count(ToLower(name), c) else 0
  {
    KeepLowerAlphaCount(ToLower(name), c);
  }

  /** Sanitising is idempotent: a sanitised name sanitises to itself. */
  lemma SanitizedNameIdempotent(name: string)
    requires SanitizedName(name).Success?
    ensures SanitizedName(SanitizedName(name).value) == SanitizedName(name)
  {
    var s := SanitizedName(name).value;
    ToLowerOfLowerAlpha(s);
    KeepLowerAlphaFixed(s);
  }

  /** `mustSanitizedName`: the sanitised name, or the fatal end of the process (a `Failure`). */
  function MustSanitizedName(name: string): (r: Result<string, SanitizeError>)
    ensures r.Success? <==> SanitizedName(name).Success?
    ensures r.Success? ==> r.value == SanitizedName(name).value
  {
    SanitizedName(name)
  }

  /** The database id of `newDocumentSession`: the sanitised organisation, database name and
      stage joined by `-`. The names are sanitised left to right and the first refusal ends
      the process. */
  function DocumentSessionId(orgId: string, dbName: string, stage: string): (r: Result<string, SanitizeError>)
    ensures r.Success? <==>
      MustSanitizedName(orgId).Success? && MustSanitizedName(dbName).Success? && MustSanitizedName(stage).Success?
    ensures r.Failure? ==> (r.error ==
      if MustSanitizedName(orgId).Failure? then MustSanitizedName(orgId).error
      else if MustSanitizedName(dbName).Failure? then MustSanitizedName(dbName).error
      else MustSanitizedName(stage).error)
    // the id splits back on `-` into the three sanitised names
    ensures r.Success? ==>
      Split(r.value, '-') == [SanitizedName(orgId).value, SanitizedName(dbName).value, SanitizedName(stage).value]
  {
    match MustSanitizedName(orgId)
    case Failure(e) => Failure(e)
    case Success(o) =>
      match MustSanitizedName(dbName)
      case Failure(e) => Failure(e)
      case Success(d) =>
        match MustSanitizedName(stage)
        case Failure(e) => Failure(e)
        case Success(s) =>
          JoinedIdSplits(o, d, s);
          Success(o + "-" + d + "-" + s)
  }

  /** Three `a`..`z` words joined by `-` split back into those words. */
  lemma JoinedIdSplits(a: string, b: string, c: string)
    requires AllLowerAlpha(a) && AllLowerAlpha(b) && AllLowerAlpha(c)
    ensures Split(a + "-" + b + "-" + c, '-') == [a, b, c]
  {
    LowerAlphaExcludes(a, '-');
    LowerAlphaExcludes(b, '-');
    LowerAlphaExcludes(c, '-');
    assert Join([a, b, c], '-') == a + "-" + b + "-" + c by {
      assert [a, b, c][1..] == [b, c];
      assert [b, c][1..] == [c];
      assert Join([b, c], '-') == b + "-" + c;
      assert a + ['-'] + (b + "-" + c) == a + "-" + b + "-" + c;
    }
    SplitJoin([a, b, c], '-');
  }
}

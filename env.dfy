/**
 * Reading the checkpoint: the file `last-recorded-date.txt` in the target
 * directory holds the RFC 3339 time of the last materialised record.
 */
module Env {

  import opened Wrappers
  import opened Decimal
  import opened TimeFormat

  /** What reading a file gives: no such file, an I/O error, or its text. */
  datatype FileState = Missing | Unreadable | Contents(text: string)

  /** `lastRecordedDateFileName()`, relative to the target directory. */
  const CheckpointFileName := "last-recorded-date.txt"

  /** `unicode.IsSpace`, the characters `strings.TrimSpace` removes. */
  predicate IsSpace(c: char) {
    var n := c as int;
    n == 0x20 || 0x09 <= n <= 0x0D || n == 0x85 || n == 0xA0 || n == 0x1680 ||
    0x2000 <= n <= 0x200A || n == 0x2028 || n == 0x2029 || n == 0x202F || n == 0x205F || n == 0x3000
  }

  predicate AllSpace(s: string) {
    forall i :: 0 <= i < |s| ==> IsSpace(s[i])
  }

  /** The number of white-space characters at the start of `s`. */
  function LeadingSpaces(s: string): (n: nat)
    ensures n <= |s| && AllSpace(s[..n])
    ensures n < |s| ==> !IsSpace(s[n])
  {
    if s != [] && IsSpace(s[0]) then
      var n := 1 + LeadingSpaces(s[1..]);
      assert s[..n] == [s[0]] + s[1..][..n - 1];
      n
    else 0
  }

  /** The number of white-space characters at the end of `s`. */
  function TrailingSpaces(s: string): (n: nat)
    ensures n <= |s| && AllSpace(s[|s| - n..])
    ensures n < |s| ==> !IsSpace(s[|s| - n - 1])
  {
    if s != [] && IsSpace(s[|s| - 1]) then
      var n := 1 + TrailingSpaces(s[..|s| - 1]);
      assert s[|s| - n..] == s[..|s| - 1][|s| - n..] + [s[|s| - 1]];
      n
    else 0
  }

  /** `strings.TrimSpace`: `s` without its leading and trailing white space. */
  function TrimSpace(s: string): string {
    var lead := LeadingSpaces(s);
    if lead == |s| then []
    else s[lead..][..|s| - lead - TrailingSpaces(s[lead..])]
  }

  /**
   * Trimming removes white space only from the two ends: the result is the
   * slice of `s` after its leading white space with only white space after
   * it, and it neither starts nor ends with white space.
   */
  lemma TrimSpaceTrims(s: string)
    ensures var r := TrimSpace(s);
            var i := LeadingSpaces(s);
            (r == [] || (!IsSpace(r[0]) && !IsSpace(r[|r| - 1]))) &&
            i + |r| <= |s| && s[i..i + |r|] == r && AllSpace(s[..i]) && AllSpace(s[i + |r|..])
  {
    var lead := LeadingSpaces(s);
    if lead == |s| {
      assert TrimSpace(s) == [] && s[|s|..] == [];
    } else {
      var rest := s[lead..];
      var trail := TrailingSpaces(rest);
      TrimmedSlice(s, lead, trail);
      assert TrimSpace(s) == rest[..|s| - lead - trail];
    }
  }

  /** The part between `lead` leading and `trail` trailing spaces, when `s[lead]` is not a space. */
  lemma TrimmedSlice(s: string, lead: nat, trail: nat)
    requires lead < |s| && trail <= |s| - lead && !IsSpace(s[lead])
    requires trail < |s| - lead ==> !IsSpace(s[|s| - trail - 1])
    requires AllSpace(s[lead..][|s| - lead - trail..])
    ensures var r := s[lead..][..|s| - lead - trail];
            r != [] && !IsSpace(r[0]) && !IsSpace(r[|r| - 1]) &&
            s[lead..lead + |r|] == r && AllSpace(s[lead + |r|..])
  {
    var rest := s[lead..];
    var r := rest[..|s| - lead - trail];
    assert r[0] == s[lead] && r[|r| - 1] == s[|s| - trail - 1];
    assert s[lead..lead + |r|] == r;
    assert s[lead + |r|..] == rest[|s| - lead - trail..];
  }

  lemma {:induction false} LeadingSpacesOf(lead: string, core: string)
    requires AllSpace(lead) && core != [] && !IsSpace(core[0])
    ensures LeadingSpaces(lead + core) == |lead|
  {
    if lead != [] {
      assert (lead + core)[1..] == lead[1..] + core;
      LeadingSpacesOf(lead[1..], core);
    }
  }

  lemma {:induction false} TrailingSpacesOf(core: string, trail: string)
    requires AllSpace(trail) && core != [] && !IsSpace(core[|core| - 1])
    ensures TrailingSpaces(core + trail) == |trail|
  {
    if trail != [] {
      var s := core + trail;
      assert s[..|s| - 1] == core + trail[..|trail| - 1];
      TrailingSpacesOf(core, trail[..|trail| - 1]);
    }
  }

  /** Text that starts and ends with a non-space character survives trimming unchanged. */
  lemma TrimSpaceOf(lead: string, core: string, trail: string)
    requires AllSpace(lead) && AllSpace(trail)
    requires core != [] && !IsSpace(core[0]) && !IsSpace(core[|core| - 1])
    ensures TrimSpace(lead + core + trail) == core
  {
    var s := lead + core + trail;
    LeadingSpacesOf(lead, core + trail);
    assert s == lead + (core + trail);
    assert s[|lead|..] == core + trail;
    TrailingSpacesOf(core, trail);
    assert s[|lead|..][..|core|] == core;
  }

  lemma TrimSpaceUnpadded(core: string)
    requires core != [] && !IsSpace(core[0]) && !IsSpace(core[|core| - 1])
    ensures TrimSpace(core) == core
  {
    TrimSpaceOf("", core, "");
    assert "" + core + "" == core;
  }

  datatype ReadError = ReadFailed | BadTimestamp(reason: ParseError)

  /**
   * `GetLastRecordedDate`: with no checkpoint file, `now` moved back three
   * years and six months; an unreadable file is an error; otherwise the
   * trimmed text parsed as RFC 3339, a parse failure being an error.
   */
  function GetLastRecordedDate(file: FileState, now: Time): (r: Result<Time, ReadError>)
    ensures file.Missing? ==> r.Ok? && r.value.unix + 1095 * 86400 <= now.unix
    ensures file.Unreadable? ==> r == Err(ReadFailed)
    ensures file.Contents? ==> (r.Ok? <==> ParseRFC3339(TrimSpace(file.text)).Ok?)
  {
    match file
    case Missing =>
      ThreeAndAHalfYearsBack(now);
      Ok(AddDate(now, -3, -6, 0))
    case Unreadable => Err(ReadFailed)
    case Contents(text) =>
      match ParseRFC3339(TrimSpace(text))
      case Ok(t) => Ok(t)
      case Err(e) => Err(BadTimestamp(e))
  }

  /** The clock matters only when the file is missing: a file that exists reads the same at any time. */
  lemma ContentsIgnoreClock(file: FileState, now: Time, later: Time)
    requires file.Contents?
    ensures GetLastRecordedDate(file, now) == GetLastRecordedDate(file, later)
  {
  }

  /** The RFC 3339 text of a well-formed instant begins with a digit and ends with `Z` or a digit. */
  lemma FormatEnds(t: Time)
    requires WellFormed(t)
    ensures var s := FormatRFC3339(t); s != [] && !IsSpace(s[0]) && !IsSpace(s[|s| - 1])
  {
    FormatRFC3339Text(t);
    FieldsOfValid(t);
    ValidFieldsFixedWidth(FieldsOf(t));
    RFC3339TextEnds(FieldsOf(t), t.offset);
  }

  /**
   * A checkpoint holding the RFC 3339 text of a well-formed instant, with any
   * surrounding white space, reads back as that instant.
   */
  lemma CheckpointReadBack(t: Time, lead: string, trail: string, now: Time)
    requires WellFormed(t) && AllSpace(lead) && AllSpace(trail)
    ensures GetLastRecordedDate(Contents(lead + FormatRFC3339(t) + trail), now) == Ok(t)
  {
    FormatEnds(t);
    TrimSpaceOf(lead, FormatRFC3339(t), trail);
    TrimmedReadBack(t, lead + FormatRFC3339(t) + trail, now);
  }

  /** A checkpoint holding exactly the RFC 3339 text of a well-formed instant reads back as that instant. */
  lemma ExactReadBack(t: Time, now: Time)
    requires WellFormed(t)
    ensures GetLastRecordedDate(Contents(FormatRFC3339(t)), now) == Ok(t)
  {
    FormatEnds(t);
    TrimSpaceUnpadded(FormatRFC3339(t));
    TrimmedReadBack(t, FormatRFC3339(t), now);
  }

  lemma TrimmedReadBack(t: Time, text: string, now: Time)
    requires WellFormed(t) && TrimSpace(text) == FormatRFC3339(t)
    ensures GetLastRecordedDate(Contents(text), now) == Ok(t)
  {
    RFC3339RoundTrip(t);
  }
}

/**
 * The canonical timeline record every parser emits, the artifact definition
 * that configures a parser, and the library calls the parsers make whose
 * implementations lie outside this model.
 */
module Timeline {
  import opened Wrappers
  import opened Text

  /** One record of a delimited export file: header name to raw field text. */
  type Record = map<string, string>

  /** A .NET `long`. */
  type Long = x: int | -0x8000_0000_0000_0000 <= x < 0x8000_0000_0000_0000

  /** A .NET `DateTime`: a tick count and the kind of clock it is read on. */
  datatype DateTimeKind = Unspecified | Utc | Local
  datatype Instant = Instant(ticks: int, kind: DateTimeKind)

  /**
   * The calls into code that is not part of this model, passed in as values:
   * the record accessors `GetDateTime`, `GetString` and `GetLong` (each returns
   * `None` for a missing or unusable field), `DateTime.ToString("o")`,
   * `Path.GetRelativePath(relativeTo, path)`, `Path.GetFileName` and
   * `String.ToLowerInvariant`.
   */
  datatype Library = Library(
    getDateTime: (Record, string) -> Option<Instant>,
    getString: (Record, string) -> Option<string>,
    getLong: (Record, string) -> Option<Long>,
    roundTrip: Instant -> string,
    getRelativePath: (string, string) -> string,
    getFileName: string -> string,
    toLowerInvariant: string -> string)

  /** The configuration entry that a parser is invoked with. */
  datatype ArtifactDefinition = ArtifactDefinition(tool: string, artifact: string, description: string)

  /** One normalised forensic event. `None` stands for a C# null. */
  datatype TimelineRow = TimelineRow(
    dateTime: string,
    timestampInfo: string,
    artifactName: string,
    tool: string,
    description: string,
    dataPath: Option<string>,
    dataDetails: Option<string>,
    fileSize: Option<Long>,
    evidencePath: string)

  /** The offset form of UTC that the round-trip format can produce. */
  const UtcOffset: string := "+00:00"

  /**
   * `dt.ToString("o").Replace("+00:00", "Z")`: the round-trip rendering with a
   * zero UTC offset written as `Z`. No `+00:00` is left in the result, and a
   * rendering without one is kept as it is.
   */
  function CanonicalDateTime(lib: Library, dt: Instant): (r: string)
    ensures !Contains(r, UtcOffset)
    ensures !Contains(lib.roundTrip(dt), UtcOffset) ==> r == lib.roundTrip(dt)
  {
    NoOffsetLeft(lib.roundTrip(dt));
    Replace(lib.roundTrip(dt), UtcOffset, "Z")
  }

  /** Replacing `+00:00` by `Z` leaves no `+00:00` behind. */
  lemma {:induction false} NoOffsetLeft(s: string)
    ensures !Contains(Replace(s, UtcOffset, "Z"), UtcOffset)
    decreases |s|
  {
    if StartsWith(s, UtcOffset) {
      ReplaceAtOffset(s);
      NoOffsetLeft(s[6..]);
      PrependNoOffset('Z', Replace(s[6..], UtcOffset, "Z"));
    } else if s == [] {
      assert Replace(s, UtcOffset, "Z") == [];
    } else {
      ReplaceElsewhere(s);
      NoOffsetLeft(s[1..]);
      // a `+` kept in place is not followed by a rebuilt `00:00`
      ReplacedPrefix(s[1..], "00:00");
      if |s| >= 6 {
        assert s[..6] == [s[0]] + s[1..][..5];
      }
      PrependNoOffset(s[0], Replace(s[1..], UtcOffset, "Z"));
    }
  }

  /** How `Replace` proceeds at an occurrence of `+00:00`. */
  lemma ReplaceAtOffset(s: string)
    requires StartsWith(s, UtcOffset)
    ensures Replace(s, UtcOffset, "Z") == ['Z'] + Replace(s[6..], UtcOffset, "Z")
  {
  }

  /** How `Replace` proceeds at any other character. */
  lemma ReplaceElsewhere(s: string)
    requires s != [] && !StartsWith(s, UtcOffset)
    ensures Replace(s, UtcOffset, "Z") == [s[0]] + Replace(s[1..], UtcOffset, "Z")
  {
  }

  /** Putting one character in front of a string without `+00:00` creates an
      occurrence only if that character is `+` and the string starts with `00:00`. */
  lemma PrependNoOffset(c: char, rest: string)
    requires !Contains(rest, UtcOffset)
    requires c != '+' || !StartsWith(rest, "00:00")
    ensures !Contains([c] + rest, UtcOffset)
  {
    var s := [c] + rest;
    forall i | 0 <= i <= |s| - 6 ensures !OccursAt(s, UtcOffset, i) {
      if i == 0 {
        assert s[..6][0] == c && s[..6][1..] == rest[..5];
      } else {
        assert s[i..i + 6] == rest[i - 1..i + 5];
        assert !OccursAt(rest, UtcOffset, i - 1);
      }
    }
  }

  /** A prefix without `Z` in the result of the replacement was already a
      prefix of its input. */
  lemma {:induction false} ReplacedPrefix(s: string, p: string)
    requires 'Z' !in p
    ensures StartsWith(Replace(s, UtcOffset, "Z"), p) ==> StartsWith(s, p)
    decreases |p|
  {
    var r := Replace(s, UtcOffset, "Z");
    if p == [] {
    } else if StartsWith(s, UtcOffset) {
      ReplaceAtOffset(s);
      assert r[0] == 'Z' != p[0];
    } else if s == [] {
      assert r == [];
    } else {
      ReplaceElsewhere(s);
      assert 'Z' !in p[1..] by { assert forall c :: c in p[1..] ==> c in p; }
      ReplacedPrefix(s[1..], p[1..]);
      StartsWithCons(s[0], Replace(s[1..], UtcOffset, "Z"), p);
      StartsWithCons(s[0], s[1..], p);
      assert [s[0]] + s[1..] == s;
    }
  }

  /** Every occurrence of `+00:00` becomes `Z`: the text before it and the text
      after it are canonicalised on their own, and nothing else changes. */
  lemma {:induction false} InteriorOffset(a: string, b: string)
    ensures Replace(a + UtcOffset + b, UtcOffset, "Z") == Replace(a, UtcOffset, "Z") + "Z" + Replace(b, UtcOffset, "Z")
    decreases |a|
  {
    if a == [] {
      var s := a + UtcOffset + b;
      assert s == UtcOffset + b;
      assert s[..6] == UtcOffset;
      ReplaceAtOffset(s);
      assert s[6..] == b;
    } else if StartsWith(a, UtcOffset) {
      InteriorOffset(a[6..], b);
      OffsetAfterOffset(a, b);
    } else {
      InteriorOffset(a[1..], b);
      OffsetAfterOther(a, b);
    }
  }

  /** The step of `InteriorOffset` when `a` itself starts with `+00:00`. */
  lemma OffsetAfterOffset(a: string, b: string)
    requires StartsWith(a, UtcOffset)
    requires Replace(a[6..] + UtcOffset + b, UtcOffset, "Z")
             == Replace(a[6..], UtcOffset, "Z") + "Z" + Replace(b, UtcOffset, "Z")
    ensures Replace(a + UtcOffset + b, UtcOffset, "Z") == Replace(a, UtcOffset, "Z") + "Z" + Replace(b, UtcOffset, "Z")
  {
    StartsWithOffsetBefore(a, b);
    DropAppend3(a, UtcOffset, b, 6);
    ReplaceAtOffset(a + UtcOffset + b);
    ReplaceAtOffset(a);
    Regroup("Z", Replace(a[6..], UtcOffset, "Z"), "Z", Replace(b, UtcOffset, "Z"));
  }

  /** The step of `InteriorOffset` when `a` does not start with `+00:00`. */
  lemma OffsetAfterOther(a: string, b: string)
    requires a != [] && !StartsWith(a, UtcOffset)
    requires Replace(a[1..] + UtcOffset + b, UtcOffset, "Z")
             == Replace(a[1..], UtcOffset, "Z") + "Z" + Replace(b, UtcOffset, "Z")
    ensures Replace(a + UtcOffset + b, UtcOffset, "Z") == Replace(a, UtcOffset, "Z") + "Z" + Replace(b, UtcOffset, "Z")
  {
    StartsWithOffsetBefore(a, b);
    DropAppend3(a, UtcOffset, b, 1);
    ReplaceElsewhere(a + UtcOffset + b);
    ReplaceElsewhere(a);
    Regroup([a[0]], Replace(a[1..], UtcOffset, "Z"), "Z", Replace(b, UtcOffset, "Z"));
  }

  /** Inserting `+00:00` after a non-empty `a` does not change whether the
      string starts with `+00:00`. */
  lemma StartsWithOffsetBefore(a: string, b: string)
    requires a != []
    ensures StartsWith(a + UtcOffset + b, UtcOffset) <==> StartsWith(a, UtcOffset)
  {
    var s := a + UtcOffset + b;
    if |a| >= 6 {
      assert a[..6] == s[..6];
    } else {
      // the `+` that starts the inserted offset falls inside the first six characters
      assert s[..6][|a|] == '+' != UtcOffset[|a|];
    }
  }

  /** A rendering that ends in the offset `+00:00` ends in `Z` once
      canonicalised, and nothing before the offset is affected. */
  lemma OffsetSuffixBecomesZ(a: string)
    ensures Replace(a + UtcOffset, UtcOffset, "Z") == Replace(a, UtcOffset, "Z") + "Z"
  {
    InteriorOffset(a, []);
    assert a + UtcOffset + [] == a + UtcOffset;
  }
}

/**
 * Path normalisation shared by the breadcrumb trail and the route matcher:
 * `pathname.split('/').filter(segment => segment)`.
 */
module Paths {
  import opened Strings

  /** One non-empty piece of a path between slashes. */
  predicate IsSegment(s: string) { s != "" && '/' !in s }

  /** The non-empty `/`-separated segments of a path, in order. */
  function Segments(pathname: string): (segments: seq<string>)
    ensures forall i :: 0 <= i < |segments| ==> IsSegment(segments[i])
  {
    var pieces := Split(pathname, '/');
    var kept := NonEmpty(pieces);
    assert forall i :: 0 <= i < |kept| ==> kept[i] in pieces;
    kept
  }

  /** The absolute path `'/' + segments.join('/')`; "/" for no segments. */
  function Rooted(segments: seq<string>): string
  {
    "/" + Join(segments, '/')
  }

  /** The segments of `a + '/' + b` are those of `a` followed by those of `b`. */
  lemma SegmentsConcat(a: string, b: string)
    ensures Segments(a + "/" + b) == Segments(a) + Segments(b)
  {
    SplitConcat(a, '/', b);
    NonEmptyConcat(Split(a, '/'), Split(b, '/'));
  }

  /** A single segment is its own segment list. */
  lemma SegmentsOfSegment(s: string)
    requires IsSegment(s)
    ensures Segments(s) == [s]
  {
    SplitPlain(s, '/');
  }

  /** Leading, trailing and doubled slashes contribute no segment. */
  lemma SlashesContributeNothing(a: string, b: string)
    ensures Segments("/" + b) == Segments(b)
    ensures Segments(a + "/") == Segments(a)
    ensures Segments(a + "//" + b) == Segments(a + "/" + b)
  {
    SegmentsConcat("", b);
    assert "" + "/" + b == "/" + b;
    SegmentsConcat(a, "");
    assert a + "/" + "" == a + "/";
    SegmentsConcat(a, "/" + b);
    assert a + "/" + ("/" + b) == a + "//" + b;
    SegmentsConcat(a, b);
  }

  /** A path that starts with something other than a slash has a segment. */
  lemma SegmentsOfNonSlashStart(p: string)
    requires p != [] && p[0] != '/'
    ensures Segments(p) != []
  {
    var rest := Split(p[1..], '/');
    var first := [p[0]] + rest[0];
    assert Split(p, '/') == [first] + rest[1..];
    NonEmptyConcat([first], rest[1..]);
    assert NonEmpty([first]) == [first];
  }

  /** A leading slash contributes no segment. */
  lemma SegmentsDropLeadingSlash(p: string)
    requires p != [] && p[0] == '/'
    ensures Segments(p) == Segments(p[1..])
  {
    SlashesContributeNothing("", p[1..]);
    assert p == "/" + p[1..];
  }

  predicate OnlySlashes(p: string)
  {
    forall i :: 0 <= i < |p| ==> p[i] == '/'
  }

  lemma OnlySlashesTail(p: string)
    requires p != [] && p[0] == '/'
    ensures OnlySlashes(p) <==> OnlySlashes(p[1..])
  {
    assert forall i :: 1 <= i < |p| ==> p[i] == p[1..][i - 1];
  }

  /** A path has no segments exactly when it consists of slashes only. */
  lemma {:induction false} NoSegmentsIffOnlySlashes(p: string)
    ensures Segments(p) == [] <==> OnlySlashes(p)
  {
    if p != [] {
      if p[0] == '/' {
        NoSegmentsIffOnlySlashes(p[1..]);
        SegmentsDropLeadingSlash(p);
        OnlySlashesTail(p);
      } else {
        SegmentsOfNonSlashStart(p);
      }
    }
  }

  /** Normalising a rooted path built from segments gives back the segments. */
  lemma SegmentsOfRooted(segments: seq<string>)
    requires forall i :: 0 <= i < |segments| ==> IsSegment(segments[i])
    ensures Segments(Rooted(segments)) == segments
  {
    var joined := Join(segments, '/');
    SegmentsConcat("", joined);
    assert "" + "/" + joined == Rooted(segments);
    if segments != [] {
      SplitJoin(segments, '/');
      NonEmptyKeepsAll(segments);
    }
  }

  /** Appending a segment to a rooted path appends `'/' + segment`, except at the root. */
  lemma RootedSnoc(segments: seq<string>, s: string)
    ensures Rooted(segments + [s]) == if segments == [] then "/" + s else Rooted(segments) + "/" + s
  {
    if segments == [] {
      assert segments + [s] == [s];
    } else {
      JoinSnoc(segments, s, '/');
    }
  }

  /** `"/" + a` has exactly the segment `a`. */
  lemma SegmentsOfOne(a: string)
    requires IsSegment(a)
    ensures Segments("/" + a) == [a]
  {
    SlashesContributeNothing("", a);
    SegmentsOfSegment(a);
  }

  /** `"/" + a + "/" + b` has exactly the segments `a` and `b`. */
  lemma SegmentsOfTwo(a: string, b: string)
    requires IsSegment(a) && IsSegment(b)
    ensures Segments("/" + a + "/" + b) == [a, b]
  {
    SegmentsConcat("/" + a, b);
    SegmentsOfOne(a);
    SegmentsOfSegment(b);
  }
}

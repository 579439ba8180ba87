/**
 * The breadcrumb trail shown above every page: a "Home" link to "/"
 * followed by one entry per non-empty path segment, each linking to the
 * cumulative path up to that segment, the last one rendered as the
 * current (non-link) entry.
 */
module Breadcrumbs {
  import opened Strings
  import opened Paths

  /** Display labels for known segments; any other segment is shown as is. */
  const Labels: map<string, string> := map[
    "" := "Home",
    "about" := "About",
    "products" := "Products",
    "contact" := "Contact",
    "login" := "Login",
    "dashboard" := "Dashboard"
  ]

  /** The dictionary has six keys, and every label is non-empty, so for a key the
      `|| segment` fallback never applies. */
  lemma LabelsTable()
    ensures Labels.Keys == {"", "about", "products", "contact", "login", "dashboard"}
    ensures forall s :: s in Labels ==> Labels[s] != ""
  {
  }

  /** One entry of the trail; `isCurrent` entries are plain text, the others links to `path`. */
  datatype Crumb = Crumb(text: string, path: string, isCurrent: bool)

  /** The root entry, always rendered as a link. */
  const HomeCrumb := Crumb("Home", "/", false)

  /** `BREADCRUMB_LABELS[segment] || segment`. */
  function Label(segment: string): (shown: string)
    ensures segment in Labels ==> shown == Labels[segment]
    ensures segment !in Labels ==> shown == segment
  {
    if segment in Labels && Labels[segment] != "" then Labels[segment] else segment
  }

  /** The trail for a pathname. */
  function Build(pathname: string): (trail: seq<Crumb>)
    ensures |trail| == 1 + |Segments(pathname)|
    ensures trail[0] == HomeCrumb
  {
    var segments := Segments(pathname);
    [HomeCrumb] + seq(|segments|, i requires 0 <= i < |segments| =>
      Crumb(Label(segments[i]), Rooted(segments[..i + 1]), i == |segments| - 1))
  }

  /** Entry `i` links to the root followed by the first `i` segments. */
  lemma PathOfEntry(pathname: string, i: nat)
    requires i < |Build(pathname)|
    ensures Build(pathname)[i].path == Rooted(Segments(pathname)[..i])
  {
    if i == 0 {
      assert Segments(pathname)[..0] == [];
    }
  }

  /** Entry `i + 1` is labelled from segment `i`: its dictionary label, else the raw segment,
      which is never the empty string, so the `''` key of the dictionary is never used. */
  lemma LabelOfEntry(pathname: string, i: nat)
    requires i < |Segments(pathname)|
    ensures Segments(pathname)[i] != ""
    ensures var s := Segments(pathname)[i];
      Build(pathname)[i + 1].text == if s in Labels then Labels[s] else s
  {
  }

  /** Only the last entry is current, and only when there is at least one segment:
      for "/" the Home entry is the whole trail and is still a link. */
  lemma CurrentIsLast(pathname: string, i: nat)
    requires i < |Build(pathname)|
    ensures Build(pathname)[i].isCurrent <==> (i > 0 && i == |Build(pathname)| - 1)
  {
  }

  /** Each entry's path is a proper prefix of the next entry's path. */
  lemma NextExtendsPath(pathname: string, i: nat)
    requires i + 1 < |Build(pathname)|
    ensures IsProperPrefix(Build(pathname)[i].path, Build(pathname)[i + 1].path)
  {
    var segments := Segments(pathname);
    PathOfEntry(pathname, i);
    PathOfEntry(pathname, i + 1);
    assert segments[..i + 1] == segments[..i] + [segments[i]];
    RootedSnoc(segments[..i], segments[i]);
  }

  predicate IsProperPrefix(a: string, b: string) { |a| < |b| && a == b[..|a|] }

  /** The paths are strictly prefix-nested along the trail. */
  lemma {:induction false} PathsNested(pathname: string, i: nat, j: nat)
    requires i < j < |Build(pathname)|
    ensures IsProperPrefix(Build(pathname)[i].path, Build(pathname)[j].path)
  {
    NextExtendsPath(pathname, j - 1);
    if i < j - 1 {
      PathsNested(pathname, i, j - 1);
      PrefixTransitive(Build(pathname)[i].path, Build(pathname)[j - 1].path, Build(pathname)[j].path);
    }
  }

  lemma PrefixTransitive(a: string, b: string, c: string)
    requires IsProperPrefix(a, b) && IsProperPrefix(b, c)
    ensures IsProperPrefix(a, c)
  {
    assert a == b[..|a|] == c[..|b|][..|a|] == c[..|a|];
  }

  /** No two entries share a path, so the paths are valid React keys. */
  lemma PathsDistinct(pathname: string, i: nat, j: nat)
    requires i < |Build(pathname)| && j < |Build(pathname)| && i != j
    ensures Build(pathname)[i].path != Build(pathname)[j].path
  {
    if i < j { PathsNested(pathname, i, j); } else { PathsNested(pathname, j, i); }
  }

  /** Building the trail again from its last entry's path reproduces the trail:
      normalising a path is idempotent. */
  lemma RebuildFromLast(pathname: string)
    ensures var trail := Build(pathname);
      Segments(trail[|trail| - 1].path) == Segments(pathname) && Build(trail[|trail| - 1].path) == trail
  {
    var trail := Build(pathname);
    var segments := Segments(pathname);
    PathOfEntry(pathname, |trail| - 1);
    assert segments[..|segments|] == segments;
    SegmentsOfRooted(segments);
  }

  /** `/products/<id>` gives Home, Products, then the raw id as the current entry
      (for example `/products/3`), whenever the id is not itself a dictionary key. */
  lemma ProductTrail(id: string)
    requires IsSegment(id) && id !in Labels
    ensures Build("/products/" + id) == [
      HomeCrumb, Crumb("Products", "/products", false), Crumb(id, "/products/" + id, true)]
  {
    var p := "/products/" + id;
    assert p == "/" + "products" + "/" + id;
    SegmentsOfTwo("products", id);
    var segments := Segments(p);
    var trail := Build(p);
    PathOfEntry(p, 1);
    PathOfEntry(p, 2);
    assert segments[..1] == ["products"];
    assert segments[..2] == segments;
    assert Join(segments, '/') == "products" + "/" + id;
    assert trail[1] == Crumb("Products", "/products", false);
    assert trail[2] == Crumb(id, "/products/" + id, true);
  }
}

/** The web server's helpers (webapp.go): the pack search on the selector page, the
    relative base path of a page, the choice of packs for the show page, and the two
    arithmetic template functions. */
module WebApp {
  import opened Wrappers
  import Text
  import Registry
  import Respacks

  // ---------------------------------------------------------------- search

  /** `s` lower-cased contains the already lower-cased `query`. */
  predicate MatchesText(s: string, query: string) {
    Text.Contains(Text.ToLower(s), query)
  }

  /** A pack matches when the name or full name of one of its images, or the name or title
      of one of its songs, contains the query. */
  ghost predicate PackMatches(rp: Respacks.Respack, query: string)
    reads rp`images, rp`songs
  {
    || (exists i :: 0 <= i < |rp.images| && (MatchesText(rp.images[i].name, query) || MatchesText(rp.images[i].fullName, query)))
    || (exists i :: 0 <= i < |rp.songs| && (MatchesText(rp.songs[i].name, query) || MatchesText(rp.songs[i].title, query)))
  }

  /** The packs that match, in their original order. */
  ghost function Filtered(packs: seq<Respacks.Respack>, query: string): seq<Respacks.Respack>
    reads set i | 0 <= i < |packs| :: packs[i]
  {
    if packs == [] then []
    else
      var last := packs[|packs| - 1];
      Filtered(packs[..|packs| - 1], query) + (if PackMatches(last, query) then [last] else [])
  }

  /** The inner loops of `filterRespacks` for one pack: images first, then songs, stopping
      at the first match. */
  method MatchesQuery(rp: Respacks.Respack, query: string) returns (b: bool)
    ensures b == PackMatches(rp, query)
  {
    for i := 0 to |rp.images|
      invariant forall j :: 0 <= j < i ==> !MatchesText(rp.images[j].name, query) && !MatchesText(rp.images[j].fullName, query)
    {
      if MatchesText(rp.images[i].name, query) || MatchesText(rp.images[i].fullName, query) {
        return true;
      }
    }
    for i := 0 to |rp.songs|
      invariant forall j :: 0 <= j < i ==> !MatchesText(rp.songs[j].name, query) && !MatchesText(rp.songs[j].title, query)
    {
      if MatchesText(rp.songs[i].name, query) || MatchesText(rp.songs[i].title, query) {
        return true;
      }
    }
    return false;
  }

  /** `filterRespacks` (webapp.go:136-159): the empty query keeps every pack; otherwise the
      packs matching the lower-cased query, in order. */
  method FilterRespacks(packs: seq<Respacks.Respack>, query: string) returns (results: seq<Respacks.Respack>)
    ensures query == "" ==> results == packs
    ensures query != "" ==> results == Filtered(packs, Text.ToLower(query))
  {
    if query == "" {
      return packs;
    }
    var q := Text.ToLower(query);
    results := [];
    for i := 0 to |packs|
      invariant results == Filtered(packs[..i], q)
    {
      assert packs[..i + 1][..i] == packs[..i];
      var matched := MatchesQuery(packs[i], q);
      if matched {
        results := results + [packs[i]];
      }
    }
    assert packs[..|packs|] == packs;
  }

  /** `xs` is `ys` with some elements left out, order kept. */
  predicate Subsequence<T(==)>(xs: seq<T>, ys: seq<T>)
    decreases |ys|
  {
    || xs == []
    || (&& ys != []
        && (|| (xs[|xs| - 1] == ys[|ys| - 1] && Subsequence(xs[..|xs| - 1], ys[..|ys| - 1]))
            || Subsequence(xs, ys[..|ys| - 1])))
  }

  /** The search keeps the packs' order and invents none: its result is a subsequence of
      the packs, and a pack is in it exactly when it is one of the packs and matches. */
  lemma {:induction false} FilteredProperties(packs: seq<Respacks.Respack>, query: string)
    ensures Subsequence(Filtered(packs, query), packs)
    ensures forall rp :: rp in Filtered(packs, query) <==> rp in packs && PackMatches(rp, query)
  {
    if packs != [] {
      var init := packs[..|packs| - 1];
      var last := packs[|packs| - 1];
      FilteredProperties(init, query);
      assert init + [last] == packs;
      assert packs[..|packs| - 1] == init;
      var r := Filtered(packs, query);
      if PackMatches(last, query) {
        assert r == Filtered(init, query) + [last];
        assert r[..|r| - 1] == Filtered(init, query) && r[|r| - 1] == last;
        assert Subsequence(r[..|r| - 1], packs[..|packs| - 1]);
        assert Subsequence(r, packs);
      } else {
        assert r == Filtered(init, query);
        assert Subsequence(r, packs[..|packs| - 1]);
      }
    }
  }

  /** A pack listed once is found at most once. */
  lemma {:induction false} FilteredNoDuplicates(packs: seq<Respacks.Respack>, query: string)
    requires Registry.NoDuplicates(packs)
    ensures Registry.NoDuplicates(Filtered(packs, query))
  {
    if packs != [] {
      var init := packs[..|packs| - 1];
      var last := packs[|packs| - 1];
      assert Registry.NoDuplicates(init);
      FilteredNoDuplicates(init, query);
      FilteredProperties(init, query);
      assert last !in init;
    }
  }

  // ---------------------------------------------------------------- page view

  /** The values a page template sees. */
  datatype View<D> = View(title: string, base: string, data: D)

  /** `getView` (webapp.go:178-188): the base path leads from the requested page back to
      the site root, one `../` for each directory level below the first. */
  function GetView<D>(path: string, title: string, data: D): (v: View<D>)
    ensures v.title == title && v.data == data
  {
    var slashes := Text.CountChar(path, '/');
    View(title, if slashes > 1 then Text.Repeat("../", slashes - 1) else "/", data)
  }

  /** The base is `/` for a page at most one level deep; below that it is made of `../`
      steps only, as many as the path has slashes beyond the first. */
  lemma GetViewBase<D>(path: string, title: string, data: D)
    ensures var slashes := Text.CountChar(path, '/');
      && (slashes <= 1 ==> GetView(path, title, data).base == "/")
      && (slashes > 1 ==>
            && |GetView(path, title, data).base| == 3 * (slashes - 1)
            && Text.CountChar(GetView(path, title, data).base, '/') == slashes - 1
            && forall k :: 0 <= k < slashes - 1 ==> GetView(path, title, data).base[3 * k..3 * k + 3] == "../")
  {
    var slashes := Text.CountChar(path, '/');
    if slashes > 1 {
      RepeatUpSlashes(slashes - 1);
      RepeatUpSteps(slashes - 1);
    }
  }

  /** `n` copies of `../` hold `n` slashes. */
  lemma {:induction false} RepeatUpSlashes(n: nat)
    ensures Text.CountChar(Text.Repeat("../", n), '/') == n
  {
    if n > 0 {
      RepeatUpSlashes(n - 1);
      Text.RepeatSucc("../", n - 1);
      var before := Text.Repeat("../", n - 1);
      SlashAfter(before, "..");
      assert before + ".." + "/" == before + "../";
    }
  }

  /** Copy `k` of `../` sits at position `3k`. */
  lemma {:induction false} RepeatUpSteps(n: nat)
    ensures forall k :: 0 <= k < n ==> Text.Repeat("../", n)[3 * k..3 * k + 3] == "../"
  {
    if n > 0 {
      RepeatUpSteps(n - 1);
      Text.RepeatSucc("../", n - 1);
      var before := Text.Repeat("../", n - 1);
      forall k | 0 <= k < n
        ensures (before + "../")[3 * k..3 * k + 3] == "../"
      {
        if k < n - 1 {
          assert (before + "../")[3 * k..3 * k + 3] == before[3 * k..3 * k + 3];
        } else {
          assert (before + "../")[3 * k..3 * k + 3] == "../";
        }
      }
    }
  }

  /** A path segment without a slash, closed by one, adds one slash. */
  lemma SlashAfter(prefix: string, segment: string)
    requires '/' !in segment
    ensures Text.CountChar(prefix + segment + "/", '/') == Text.CountChar(prefix, '/') + 1
  {
    Text.CountCharAppend(prefix, segment, '/');
    assert (prefix + segment + "/")[..|prefix + segment|] == prefix + segment;
  }

  /** A page two folders deep, such as `/respack-info/<id>/`, climbs two levels. */
  lemma GetViewTwoDeep<D>(first: string, second: string, title: string, data: D)
    requires '/' !in first && '/' !in second
    ensures GetView("/" + first + "/" + second + "/", title, data).base == "../../"
  {
    SlashAfter([], []);
    SlashAfter("/", first);
    SlashAfter("/" + first + "/", second);
    assert [] + [] + "/" == "/";
    var path := "/" + first + "/" + second + "/";
    assert Text.CountChar(path, '/') == 3;
    assert Text.Repeat("../", 2) == "../../" by {
      assert Text.Repeat("../", 2) == "../" + Text.Repeat("../", 1);
      assert Text.Repeat("../", 1) == "../" + [];
    }
  }

  // ---------------------------------------------------------------- show page

  /** What a request for the show page produces: a 404 naming an unknown pack, or the page
      configured with the packs to load, the default song and autoplay. */
  datatype ShowPage = UnknownRespack(message: string) | Page(respacks: seq<string>, defaultSong: int, autoPlay: bool)

  /** The position of the first requested ID that names no pack, if any. */
  function FirstUnknown(known: map<string, Respacks.Respack>, ids: seq<string>): (r: Option<nat>)
    ensures r.Some? ==>
      && r.value < |ids| && ids[r.value] !in known
      && forall j :: 0 <= j < r.value ==> ids[j] in known
    ensures r.None? ==> forall j :: 0 <= j < |ids| ==> ids[j] in known
  {
    if ids == [] then None
    else if ids[0] !in known then Some(0)
    else match FirstUnknown(known, ids[1..])
      case Some(k) => Some(k + 1)
      case None => None
  }

  /** The number of images in the requested packs, all of which are known. */
  ghost function TotalImages(known: map<string, Respacks.Respack>, ids: seq<string>): nat
    requires forall j :: 0 <= j < |ids| ==> ids[j] in known
    reads known.Values
  {
    if ids == [] then 0
    else TotalImages(known, ids[..|ids| - 1]) + |known[ids[|ids| - 1]].images|
  }

  /** No image at all among the requested packs exactly when each of them has none. */
  lemma {:induction false} NoImagesMeansEachEmpty(known: map<string, Respacks.Respack>, ids: seq<string>)
    requires forall j :: 0 <= j < |ids| ==> ids[j] in known
    ensures TotalImages(known, ids) == 0 <==> forall j :: 0 <= j < |ids| ==> known[ids[j]].images == []
  {
    if ids != [] {
      NoImagesMeansEachEmpty(known, ids[..|ids| - 1]);
    }
  }

  /** `renderRespacks` (webapp.go:63-82): any unknown pack is a 404 naming the first one;
      otherwise the requested packs are shown, with `builtin_image` added when none of them
      has an image. */
  method RenderRespacks(known: map<string, Respacks.Respack>, ids: seq<string>, defaultSong: int)
    returns (page: ShowPage)
    ensures FirstUnknown(known, ids).Some? ==>
      page == UnknownRespack("Unknown respack: " + ids[FirstUnknown(known, ids).value])
    ensures FirstUnknown(known, ids).None? ==>
      page == Page(ids + (if TotalImages(known, ids) == 0 then ["builtin_image"] else []), defaultSong, true)
  {
    var images := 0;
    for i := 0 to |ids|
      invariant forall j :: 0 <= j < i ==> ids[j] in known
      invariant images == TotalImages(known, ids[..i])
    {
      if ids[i] in known {
        assert ids[..i + 1][..i] == ids[..i];
        images := images + known[ids[i]].ImageCount();
      } else {
        return UnknownRespack("Unknown respack: " + ids[i]);
      }
    }
    assert ids[..|ids|] == ids;
    var respacks := ids;
    if images == 0 {
      respacks := respacks + ["builtin_image"];
    }
    return Page(respacks, defaultSong, true);
  }

  // ---------------------------------------------------------------- template functions

  /** Go's `/` on integers: the quotient truncated toward zero. */
  function GoDivide(a: int, b: int): (q: int)
    requires b != 0
  {
    if a >= 0 && b > 0 then a / b
    else if a >= 0 then -(a / -b)
    else if b > 0 then -((-a) / b)
    else (-a) / (-b)
  }

  /** Go's `%` on integers: the remainder takes the sign of the dividend. */
  function GoRemainder(a: int, b: int): int
    requires b != 0
  {
    a - b * GoDivide(a, b)
  }

  /** Truncated division: the remainder is smaller than the divisor in size and never has
      the opposite sign of the dividend. */
  lemma GoDivisionMeaning(a: int, b: int)
    requires b != 0
    ensures a == b * GoDivide(a, b) + GoRemainder(a, b)
    ensures -b < GoRemainder(a, b) < b || b < GoRemainder(a, b) < -b
    ensures a >= 0 ==> GoRemainder(a, b) >= 0
    ensures a <= 0 ==> GoRemainder(a, b) <= 0
  {
    var q := GoDivide(a, b);
    if a >= 0 && b > 0 {
      assert a == b * (a / b) + a % b;
    } else if a >= 0 {
      assert a == (-b) * (a / -b) + a % -b;
      assert b * q == (-b) * (a / -b);
    } else if b > 0 {
      assert -a == b * ((-a) / b) + (-a) % b;
      assert b * q == -(b * ((-a) / b));
    } else {
      assert -a == (-b) * ((-a) / (-b)) + (-a) % (-b);
      assert b * q == -((-b) * ((-a) / (-b)));
    }
  }

  /** The template function `mod` (webapp.go:23-25): whether `j` divides `i`. */
  function Mod(i: int, j: int): (r: bool)
    requires j != 0
    ensures r <==> i % j == 0
  {
    GoRemainderZero(i, j);
    GoRemainder(i, j) == 0
  }

  /** The template function `divide` (webapp.go:26-28): the quotient truncated toward
      zero, so the remainder left is smaller than the divisor in size and has the sign of
      the dividend; exact when `mod` holds. */
  function Divide(a: int, b: int): (q: int)
    requires b != 0
    ensures var r := a - b * q;
      && (-b < r < b || b < r < -b)
      && (a >= 0 ==> r >= 0) && (a <= 0 ==> r <= 0)
    ensures Mod(a, b) ==> a == b * q
  {
    GoDivisionMeaning(a, b);
    GoRemainderZero(a, b);
    GoDivide(a, b)
  }

  /** A zero Go remainder is a zero Euclidean one, and then the Go quotient is exact. */
  lemma GoRemainderZero(i: int, j: int)
    requires j != 0
    ensures GoRemainder(i, j) == 0 <==> i % j == 0
    ensures GoRemainder(i, j) == 0 ==> i == j * GoDivide(i, j)
  {
    GoDivisionMeaning(i, j);
    if i % j == 0 {
      assert i == j * (i / j);
      GoMultipleExact(i / j, j);
    } else if GoRemainder(i, j) == 0 {
      EuclidMultipleExact(GoDivide(i, j), j);
    }
  }

  /** For a non-negative dividend and a positive divisor, Go's and Dafny's division agree. */
  lemma GoAgreesWhenNonNegative(i: int, j: int)
    requires i >= 0 && j > 0
    ensures Divide(i, j) == i / j && GoRemainder(i, j) == i % j
  {
  }

  /** A whole multiple leaves no Euclidean remainder either. */
  lemma EuclidMultipleExact(k: int, j: int)
    requires j != 0
    ensures (j * k) % j == 0
  {
    var i := j * k;
    var q, r := i / j, i % j;
    assert i == j * q + r;
    assert j * (k - q) == r;
    if k - q > 0 {
      MulAtLeast(j, k - q);
    } else if k - q < 0 {
      MulAtLeast(j, q - k);
    }
  }

  /** A whole multiple leaves no remainder. */
  lemma GoMultipleExact(k: int, j: int)
    requires j != 0
    ensures GoRemainder(j * k, j) == 0
  {
    var i := j * k;
    GoDivisionMeaning(i, j);
    var r := GoRemainder(i, j);
    var q := GoDivide(i, j);
    assert j * (k - q) == r;
    if k - q > 0 {
      MulAtLeast(j, k - q);
    } else if k - q < 0 {
      MulAtLeast(j, q - k);
    }
  }

  /** A non-zero multiple is at least as large as the factor in size. */
  lemma MulAtLeast(j: int, m: int)
    requires j != 0 && m >= 1
    ensures j * m >= j >= 1 || j * m <= j <= -1
  {
    if m > 1 {
      MulAtLeast(j, m - 1);
      assert j * m == j * (m - 1) + j;
    }
  }
}

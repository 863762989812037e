/** The blog page's list logic: the tag menu, the search-and-tag filter, the
    featured/regular split, and the tag labels shown in the menu. */
module Blog {
  import opened Strings
  import Seqs

  /** A post, reduced to the fields the list logic reads. */
  datatype Post = Post(id: string, title: string, excerpt: string, tags: seq<string>, featured: bool)

  /** Every tag of every post, post by post, in order. */
  function FlatTags(posts: seq<Post>): (r: seq<string>)
    ensures forall i, t :: 0 <= i < |posts| && t in posts[i].tags ==> t in r
    ensures forall t :: t in r ==> exists i :: 0 <= i < |posts| && t in posts[i].tags
  {
    if posts == [] then []
    else
      var rest := FlatTags(posts[1..]);
      assert forall i :: 1 <= i < |posts| ==> posts[i] == posts[1..][i - 1];
      posts[0].tags + rest
  }

  /** The tag menu: "all", then each distinct tag in order of first occurrence. */
  function AllTags(posts: seq<Post>): (r: seq<string>)
    ensures |r| >= 1 && r[0] == "all"
    ensures Seqs.NoDup(r[1..])
    ensures forall i, t :: 0 <= i < |posts| && t in posts[i].tags ==> t in r[1..]
    ensures forall t :: t in r[1..] ==> exists i :: 0 <= i < |posts| && t in posts[i].tags
    ensures forall i :: 1 <= i < |r| ==> r[i] in FlatTags(posts)
    ensures forall i, j :: 1 <= i < j < |r| ==>
              Seqs.IndexOf(FlatTags(posts), r[i]) < Seqs.IndexOf(FlatTags(posts), r[j])
  {
    var distinct := Seqs.Dedup(FlatTags(posts));
    assert (["all"] + distinct)[1..] == distinct;
    ["all"] + distinct
  }

  /** The lower-cased search term occurs in the lower-cased title or excerpt. */
  predicate MatchesSearch(p: Post, term: string) {
    Contains(Lower(p.title), Lower(term)) || Contains(Lower(p.excerpt), Lower(term))
  }

  /** The selected tag is "all" or one of the post's tags. */
  predicate MatchesTag(p: Post, tag: string) {
    tag == "all" || tag in p.tags
  }

  predicate Kept(p: Post, term: string, tag: string) {
    MatchesSearch(p, term) && MatchesTag(p, tag)
  }

  /** `filteredPosts`: the posts matching both the search term and the tag, in
      their original order and multiplicity. */
  function FilteredPosts(posts: seq<Post>, term: string, tag: string): (r: seq<Post>)
    ensures Seqs.IsSubseq(r, posts)
    ensures forall p :: p in r <==> p in posts && Kept(p, term, tag)
    ensures forall p :: multiset(r)[p] == if Kept(p, term, tag) then multiset(posts)[p] else 0
  {
    Seqs.Filter(posts, (p: Post) => Kept(p, term, tag))
  }

  /** With an empty search and the "all" tag, every post is listed. */
  lemma EmptySearchKeepsAll(posts: seq<Post>)
    ensures FilteredPosts(posts, "", "all") == posts
  {
    forall p: Post ensures Kept(p, "", "all") {
      ContainsEmpty(Lower(p.title));
    }
    Seqs.FilterAllKept(posts, (p: Post) => Kept(p, "", "all"));
  }

  /** `filteredPosts.filter(post => post.featured)`. */
  function FeaturedPosts(filtered: seq<Post>): (r: seq<Post>)
    ensures Seqs.IsSubseq(r, filtered)
    ensures forall p :: p in r <==> p in filtered && p.featured
  {
    Seqs.Filter(filtered, (p: Post) => p.featured)
  }

  /** `filteredPosts.filter(post => !post.featured)`. */
  function RegularPosts(filtered: seq<Post>): (r: seq<Post>)
    ensures Seqs.IsSubseq(r, filtered)
    ensures forall p :: p in r <==> p in filtered && !p.featured
  {
    Seqs.Filter(filtered, (p: Post) => !p.featured)
  }

  /** The featured and regular lists split the filtered list: each keeps the
      filtered order, featured posts go to the first and the others to the
      second, nothing is in both, and together they hold exactly the filtered posts. */
  lemma FeaturedRegularPartition(filtered: seq<Post>)
    ensures Seqs.IsSubseq(FeaturedPosts(filtered), filtered)
    ensures Seqs.IsSubseq(RegularPosts(filtered), filtered)
    ensures forall p :: p in FeaturedPosts(filtered) ==> p.featured
    ensures forall p :: p in RegularPosts(filtered) ==> !p.featured
    ensures forall p :: p in FeaturedPosts(filtered) ==> p !in RegularPosts(filtered)
    ensures |FeaturedPosts(filtered)| + |RegularPosts(filtered)| == |filtered|
    ensures multiset(FeaturedPosts(filtered)) + multiset(RegularPosts(filtered)) == multiset(filtered)
  {
    Seqs.FilterPartition(filtered, (p: Post) => p.featured, (p: Post) => !p.featured);
  }

  /** The menu label of a tag: "All Topics" for "all", otherwise the tag with
      its first character upper-cased. */
  function TagLabel(tag: string): (r: string)
    ensures tag == "all" ==> r == "All Topics"
    ensures tag != "all" ==> |r| == |tag|
    ensures tag != "all" && |tag| > 0 ==> r[0] == UpperChar(tag[0]) && r[1..] == tag[1..]
  {
    if tag == "all" then "All Topics"
    else if tag == [] then []
    else [UpperChar(tag[0])] + tag[1..]
  }

  /** A label other than "All Topics" reads back as its tag once lower-cased,
      when the tag itself is lower case, as every tag on the page is. */
  lemma TagLabelRoundTrip(tag: string)
    requires tag != "all" && NoUpper(tag)
    ensures Lower(TagLabel(tag)) == tag
  {
    var r := TagLabel(tag);
    forall i | 0 <= i < |tag| ensures Lower(r)[i] == tag[i] {
      if i > 0 {
        assert r[i] == r[1..][i - 1] == tag[1..][i - 1] == tag[i];
      }
    }
  }
}

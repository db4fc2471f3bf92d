/**
 Listing posts newest first, as the store's `sort({ createdAt: -1 })` does.
 Posts with equal `createdAt` may come in any order.
 */
module Listing {
  import opened BlogModel

  /** Non-increasing creation time from front to back. */
  predicate NewestFirst(es: seq<Entry>) {
    forall i, j :: 0 <= i < j < |es| ==> es[i].post.createdAt >= es[j].post.createdAt
  }

  /** Inserts `e` into a newest-first sequence, keeping it newest first. */
  function InsertByDate(es: seq<Entry>, e: Entry): (r: seq<Entry>)
    requires NewestFirst(es)
    ensures NewestFirst(r)
    ensures multiset(r) == multiset(es) + multiset{e}
    decreases |es|
  {
    if |es| == 0 then [e]
    else if es[0].post.createdAt <= e.post.createdAt then
      PrependNewest(e, es);
      [e] + es
    else
      var rest := InsertByDate(es[1..], e);
      NoNewerThanHead(es, e, rest);
      PrependNewest(es[0], rest);
      assert es == [es[0]] + es[1..];
      [es[0]] + rest
  }

  /** Every element of `rest`, built from the tail of `es` and an entry older
      than its head, is no newer than that head. */
  lemma NoNewerThanHead(es: seq<Entry>, e: Entry, rest: seq<Entry>)
    requires NewestFirst(es) && |es| > 0 && e.post.createdAt < es[0].post.createdAt
    requires multiset(rest) == multiset(es[1..]) + multiset{e}
    ensures forall x :: x in rest ==> x.post.createdAt <= es[0].post.createdAt
  {
    forall x | x in rest ensures x.post.createdAt <= es[0].post.createdAt {
      assert x in multiset(rest);
      if x != e {
        assert x in multiset(es[1..]);
        var i :| 0 <= i < |es[1..]| && es[1..][i] == x;
        assert es[i + 1] == x;
      }
    }
  }

  /** A post no newer than `h` may follow `h`. */
  lemma PrependNewest(h: Entry, es: seq<Entry>)
    requires NewestFirst(es)
    requires forall x :: x in es ==> x.post.createdAt <= h.post.createdAt
    ensures NewestFirst([h] + es)
  {
  }

  /** The entries of the posts whose keys lie in `ks`. */
  function EntriesOn(posts: map<PostId, Post>, ks: set<PostId>): set<Entry> {
    set k | k in ks && k in posts :: Entry(k, posts[k])
  }

  /** Lists every stored post exactly once, newest first. */
  method ListNewestFirst(posts: map<PostId, Post>) returns (es: seq<Entry>)
    ensures NewestFirst(es)
    ensures multiset(es) == multiset(Entries(posts))
  {
    es := [];
    var todo := posts.Keys;
    while todo != {}
      invariant todo <= posts.Keys
      invariant NewestFirst(es)
      invariant multiset(es) == multiset(EntriesOn(posts, posts.Keys - todo))
      decreases todo
    {
      var k :| k in todo;
      var e := Entry(k, posts[k]);
      assert e !in EntriesOn(posts, posts.Keys - todo);
      assert EntriesOn(posts, posts.Keys - (todo - {k})) == EntriesOn(posts, posts.Keys - todo) + {e};
      es := InsertByDate(es, e);
      todo := todo - {k};
    }
    assert EntriesOn(posts, posts.Keys - todo) == Entries(posts);
  }

  /** A store has as many entries as posts. */
  lemma {:induction false} EntriesCount(posts: map<PostId, Post>)
    ensures |Entries(posts)| == |posts|
    decreases |posts|
  {
    if |posts| > 0 {
      var k :| k in posts;
      var rest := posts - {k};
      EntriesCount(rest);
      var e := Entry(k, posts[k]);
      forall x ensures x in Entries(posts) <==> x in Entries(rest) + {e} {
        if x in Entries(posts) && x != e {
          assert x.id in rest;
        }
      }
      assert Entries(posts) == Entries(rest) + {e};
      assert e !in Entries(rest);
    }
  }

  /** A sequence with the same multiset as a set repeats no element. */
  lemma NoRepeats<T>(xs: seq<T>, s: set<T>)
    requires multiset(xs) == multiset(s)
    ensures forall i, j :: 0 <= i < j < |xs| ==> xs[i] != xs[j]
  {
    forall i, j | 0 <= i < j < |xs| ensures xs[i] != xs[j] {
      var y := xs[j];
      assert xs == xs[..j] + [y] + xs[j+1..];
      assert multiset(xs)[y] >= multiset(xs[..j])[y] + 1;
      assert multiset(xs)[y] <= 1;
      assert xs[i] in multiset(xs[..j]);
    }
  }

  /** A listing that is a permutation of the store's entries names every
      post exactly once, with its stored record. */
  lemma ListingExactlyOnce(posts: map<PostId, Post>, es: seq<Entry>)
    requires multiset(es) == multiset(Entries(posts))
    ensures |es| == |posts|
    ensures forall i, j :: 0 <= i < j < |es| ==> es[i].id != es[j].id
    ensures forall e :: e in es <==> e.id in posts && posts[e.id] == e.post
  {
    EntriesCount(posts);
    assert |es| == |multiset(es)| == |multiset(Entries(posts))| == |Entries(posts)|;
    NoRepeats(es, Entries(posts));
    forall e ensures e in es <==> e.id in posts && posts[e.id] == e.post {
      assert e in es <==> e in multiset(es);
      if e.id in posts && posts[e.id] == e.post {
        assert e == Entry(e.id, posts[e.id]);
      }
    }
    forall i, j | 0 <= i < j < |es| ensures es[i].id != es[j].id {
      assert es[i] in es && es[j] in es;
    }
  }
}

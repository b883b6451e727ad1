/** What the configured contexts offer, context by context: which URLs, with which facts, and in which order. */
module ContextOffers {
  import opened PyText
  import opened Sequences
  import opened Wrappers
  import opened ContextEntries

  /** An empty description counts as none. */
  predicate Describes(configured: Option<Text>, shown: Option<Text>) {
    if configured == None || configured == Some([]) then shown.None? else shown == configured
  }

  /** The URL a folder is listed by: the storage's own, with or without the `metadata/` the context may add. */
  predicate ListedBy(url: Text, listed: Text) {
    if HasPrefix(url, Lit("metadata/files/")) then url == Lit("metadata/") + listed else listed == url
  }

  predicate ListingOf(ctx: Context, known: Listings, children: seq<Child>) {
    ctx.FolderContext? &&
    exists key :: key in known && ListedBy(ctx.url, key.0) && key.1 == ctx.maxDepth && known[key] == children
  }

  ghost predicate OffersItself(ctx: Context, o: Offer) {
    match ctx
    case FileContext(url, description) => o.url == url && o.facts.mime == GuessMime(url) && Describes(description, o.facts.description)
    case FolderContext(url, mime, description, _) => o.url == url && o.facts.mime == mime && Describes(description, o.facts.description)
    case UserDefined => false
  }

  ghost predicate IsChildOffer(child: Child, o: Offer) {
    o.url == child.url && o.facts.description.None? &&
    if child.isFolder then o.facts.mime == Lit(FOLDER_METADATA_MIME) else o.facts.mime == GuessMime(child.url)
  }

  lemma FilesUrlIsListed(url: Text, listed: Text)
    ensures ListedBy(url, listed) <==> listed == FilesUrl(url)
  {
    if HasPrefix(url, Lit("metadata/files/")) {
      var n := |"metadata/"|;
      assert Lit("metadata/files/")[..n] == Lit("metadata/");
      assert url[..n] == url[..|Lit("metadata/files/")|][..n] == Lit("metadata/");
      assert url == url[..n] + url[n..];
      assert (Lit("metadata/") + listed)[n..] == listed;
    }
  }

  lemma ListingIsKnown(ctx: Context, known: Listings)
    requires ctx.FolderContext?
    ensures ListingKey(ctx) in known ==> ListingOf(ctx, known, known[ListingKey(ctx)])
    ensures forall children :: ListingOf(ctx, known, children) ==> ListingKey(ctx) in known && known[ListingKey(ctx)] == children
  {
    forall listed ensures ListedBy(ctx.url, listed) <==> listed == FilesUrl(ctx.url) {
      FilesUrlIsListed(ctx.url, listed);
    }
    hide ListedBy, FilesUrl;
    if ListingKey(ctx) in known { assert ListedBy(ctx.url, ListingKey(ctx).0); }
    forall children | ListingOf(ctx, known, children) ensures ListingKey(ctx) in known && known[ListingKey(ctx)] == children {
      var key :| key in known && ListedBy(ctx.url, key.0) && key.1 == ctx.maxDepth && known[key] == children;
      assert key == ListingKey(ctx);
    }
  }

  /** A context offers itself and then the children it lists, one offer each and in order; it fails exactly when it is a folder with no listing. */
  lemma OneContextOffers(ctx: Context, known: Listings)
    ensures OffersOf(ctx, known).None? <==> ctx.FolderContext? && !exists children :: ListingOf(ctx, known, children)
    ensures OffersOf(ctx, known).Some? ==> var offers := OffersOf(ctx, known).value;
      && (offers == [] <==> ctx.UserDefined?)
      && (offers != [] ==> OffersItself(ctx, offers[0]))
      && (ctx.FileContext? ==> |offers| == 1)
      && (forall children :: ListingOf(ctx, known, children) ==>
            |offers| == 1 + |children| && forall i :: 0 <= i < |children| ==> IsChildOffer(children[i], offers[1 + i]))
  {
    if ctx.FolderContext? { ListingIsKnown(ctx, known); }
    hide ListingOf, ListingKey;
  }

  /** The offers of several contexts are those of each, in order; one that fails fails them all. */
  lemma {:induction false} OffersConcat(a: seq<Context>, b: seq<Context>, known: Listings)
    ensures AllOffers(a + b, known) ==
            if AllOffers(a, known).Some? && AllOffers(b, known).Some?
            then Some(AllOffers(a, known).value + AllOffers(b, known).value) else None
    decreases a
  {
    hide OffersOf;
    if a == [] {
      assert a + b == b;
      if AllOffers(b, known).Some? { LeftEmpty(AllOffers(b, known).value); }
    } else {
      assert (a + b)[1..] == a[1..] + b && (a + b)[0] == a[0];
      OffersConcat(a[1..], b, known);
      if OffersOf(a[0], known).Some? && AllOffers(a[1..], known).Some? && AllOffers(b, known).Some? {
        Associative(OffersOf(a[0], known).value, AllOffers(a[1..], known).value, AllOffers(b, known).value);
      }
    }
  }

  lemma AllOffersOfOne(ctx: Context, known: Listings)
    ensures AllOffers([ctx], known) == OffersOf(ctx, known)
  {
    assert [ctx][1..] == [];
    if OffersOf(ctx, known).Some? { RightEmpty(OffersOf(ctx, known).value); }
  }

  /** The files the folders expand to are the listed children that are no folders. */
  lemma {:induction false} ExpandedAreListedFiles(contexts: seq<Context>, known: Listings, u: Text)
    ensures u in ExpandedFiles(contexts, known) <==>
            exists ctx: Context, children: seq<Child>, c: Child :: ctx in contexts && ListingOf(ctx, known, children) && c in children && !c.isFolder && c.url == u
    decreases contexts
  {
    if contexts != [] {
      var first, rest := contexts[0], contexts[1..];
      ExpandedAreListedFiles(rest, known, u);
      assert contexts == [first] + rest;
      if first.FolderContext? { ListingIsKnown(first, known); }
      hide ListingKey;
      if u in ExpandedFiles(contexts, known) && u !in ExpandedFiles(rest, known) {
        var c :| c in known[ListingKey(first)] && !c.isFolder && c.url == u;
        assert first in contexts && ListingOf(first, known, known[ListingKey(first)]);
      }
    }
  }
}

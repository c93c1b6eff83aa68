/**
 * components/AppHeader.tsx: the two navigation links offered for the current
 * pathname, and which of them is highlighted.
 */
module Header {
  import opened Strings

  datatype Link = Link(href: string, text: string)

  const Entry: string := "/diary/entry"
  const Home: string := "/diary"
  const View: string := "/diary/view"

  /** The link list as a rule table: the `/diary/view` test comes first. */
  function NavLinks(pathname: string): seq<Link> {
    if Includes(pathname, View) then
      [Link(Entry, "✍️ 入力画面へ"), Link(Home, "🏠 ホームへ")]
    else if Includes(pathname, Home) then
      [Link(View, "👀 表示画面へ"), Link(Home, "🏠 ホームへ")]
    else
      [Link(Home, "✍️ 日記入力へ"), Link(View, "👀 日記表示へ")]
  }

  /** The component body: `links` starts empty and receives two pushes in
      whichever branch of the if / else-if chain applies. */
  method BuildLinks(pathname: string) returns (links: seq<Link>)
    ensures links == NavLinks(pathname)
  {
    links := [];
    if Includes(pathname, View) {
      links := links + [Link(Entry, "✍️ 入力画面へ")];
      links := links + [Link(Home, "🏠 ホームへ")];
    } else if Includes(pathname, Home) {
      links := links + [Link(View, "👀 表示画面へ")];
      links := links + [Link(Home, "🏠 ホームへ")];
    } else {
      links := links + [Link(Home, "✍️ 日記入力へ")];
      links := links + [Link(View, "👀 日記表示へ")];
    }
  }

  /** A link is highlighted when its target is exactly the current pathname. */
  predicate IsActive(link: Link, pathname: string) {
    link.href == pathname
  }

  function Hrefs(links: seq<Link>): seq<string> {
    seq(|links|, i requires 0 <= i < |links| => links[i].href)
  }

  /** The targets offered, branch by branch. */
  lemma NavLinksTable(pathname: string)
    ensures Includes(pathname, View) ==> Hrefs(NavLinks(pathname)) == [Entry, Home]
    ensures !Includes(pathname, View) && Includes(pathname, Home) ==> Hrefs(NavLinks(pathname)) == [View, Home]
    ensures !Includes(pathname, Home) ==> Hrefs(NavLinks(pathname)) == [Home, View]
  {
    if !Includes(pathname, Home) {
      // a path without "/diary" cannot contain "/diary/view" either
      if Includes(pathname, View) {
        IncludesPrefix(pathname, View, Home);
      }
    }
  }

  /** Every pathname yields exactly two links with distinct targets, so the
      targets can serve as list keys. */
  lemma TwoDistinctLinks(pathname: string)
    ensures |NavLinks(pathname)| == 2
    ensures NavLinks(pathname)[0].href != NavLinks(pathname)[1].href
  {
  }

  /** Every path under `/diary/view` also passes the `/diary` test, so the
      more specific test must come first: were the tests swapped, the view
      branch could never be taken. */
  lemma ViewTestMustComeFirst(pathname: string)
    requires Includes(pathname, View)
    ensures Includes(pathname, Home)
  {
    IncludesPrefix(pathname, View, Home);
  }

  /** Each of the three branches is taken by some pathname. */
  lemma AllBranchesReachable()
    ensures Hrefs(NavLinks(View)) == [Entry, Home]
    ensures Hrefs(NavLinks(Home)) == [View, Home]
    ensures Hrefs(NavLinks("/")) == [Home, View]
  {
    IncludesSelf(View);
    IncludesSelf(Home);
    IncludesLonger(Home, View);
    IncludesLonger("/", View);
    IncludesLonger("/", Home);
  }

  /** At most one link is highlighted, because the two targets differ. */
  lemma AtMostOneActive(pathname: string)
    ensures !(IsActive(NavLinks(pathname)[0], pathname) && IsActive(NavLinks(pathname)[1], pathname))
  {
  }

  /** A highlighted link appears only on the page `/diary` itself, and there it
      is the second link (home): no other page is offered a link to itself. */
  lemma ActiveOnlyOnHome(pathname: string, i: nat)
    requires i < |NavLinks(pathname)|
    ensures IsActive(NavLinks(pathname)[i], pathname) <==> pathname == Home && i == 1
  {
    var links := NavLinks(pathname);
    if IsActive(links[i], pathname) {
      IncludesSelf(pathname);
      if Includes(pathname, View) {
        // the offered targets "/diary/entry" and "/diary" do not contain "/diary/view"
        assert pathname == Entry || pathname == Home;
        EntryLacksView();
        IncludesLonger(Home, View);
      }
    } else if pathname == Home && i == 1 {
      IncludesLonger(Home, View);
      IncludesSelf(Home);
    }
  }

  lemma EntryLacksView()
    ensures !Includes(Entry, View)
  {
    assert Entry[..|View|][7] != View[7];
    assert Entry[1..][..|View|][0] != View[0];
    IncludesLonger(Entry[1..][1..], View);
  }
}

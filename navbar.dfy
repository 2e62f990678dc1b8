/** The navigation bar: which links are shown, as a function of whether a user is signed in. */
module Navbar {

  datatype Link = Link(caption: string, href: string)

  const Home := Link("Home", "/")

  /** The links, in display order. */
  function NavLinks(signedIn: bool): (r: seq<Link>)
    ensures |r| >= 1 && r[0] == Home
    ensures !signedIn ==> r == [Home]
    ensures signedIn ==> |r| == 5 && [Home] <= r
    ensures signedIn ==> r[1].href == "/species" && r[2].href == "/users"
                         && r[3].href == "/species-speed" && r[4].href == "/species-chatbot"
    ensures signedIn ==> r[1].caption == "Species" && r[2].caption == "Users"
                         && r[3].caption == "Species Speed" && r[4].caption == "Species Chatbot"
    ensures forall i, j :: 0 <= i < j < |r| ==> r[i].href != r[j].href
  {
    [Home]
    + (if signedIn
       then [Link("Species", "/species"), Link("Users", "/users"), Link("Species Speed", "/species-speed")]
       else [])
    + (if signedIn then [Link("Species Chatbot", "/species-chatbot")] else [])
  }

  /** Signing in only appends links: the signed-out bar is a prefix of the signed-in one. */
  lemma SignedOutIsPrefix()
    ensures NavLinks(false) <= NavLinks(true)
    ensures |NavLinks(false)| < |NavLinks(true)|
  {
  }
}

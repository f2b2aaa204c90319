/** The contact section's links (src/components/Contact/Contact.tsx): each
    declared link renders as an anchor that opens in a new tab, without
    opener or referrer, unless its href starts with "mailto". */
module Contact {
  import opened Optional

  /** One declared link: its label (`caption`, also the render key), displayed value and href. */
  datatype ContactLink = ContactLink(caption: string, value: string, href: string)

  /** The links, in declared order: Email is the only mail link, and the
      labels, used as render keys, are distinct. */
  function Links(): (ls: seq<ContactLink>)
    ensures |ls| == 3 && ls[0].caption == "Email"
    ensures forall k :: 0 <= k < |ls| ==> (IsMailto(ls[k].href) <==> k == 0)
    ensures forall i, j :: 0 <= i < j < |ls| ==> ls[i].caption != ls[j].caption
  {
    var ls := [ ContactLink("Email", "preethi@umd.edu", "mailto:preethi@umd.edu"),
      ContactLink("LinkedIn", "/in/preethi-chalasani", "https://linkedin.com/in/"),
      ContactLink("University", "UMD Clark School", "https://eng.umd.edu/") ];
    assert ls[1].href[0] == 'h' && ls[2].href[0] == 'h';
    assert ls[0].caption[0] == 'E' && ls[1].caption[0] == 'L' && ls[2].caption[0] == 'U';
    ls
  }

  /** `href.startsWith("mailto")`: the literal six characters, with no colon,
      at position 0. */
  predicate IsMailto(href: string)
    ensures IsMailto(href) <==> "mailto" <= href
  {
    |href| >= 6 && href[..6] == "mailto"
  }

  /** A rendered anchor; an absent attribute is None. */
  datatype Anchor = Anchor(key: string, href: string, caption: string, value: string,
                           target: Option<string>, rel: Option<string>)

  /** The anchor for one link: a mail link gets neither `target` nor `rel`;
      any other gets `target="_blank"` and `rel="noopener noreferrer"`. */
  function RenderLink(l: ContactLink): (a: Anchor)
    ensures a.key == l.caption && a.caption == l.caption && a.value == l.value && a.href == l.href
    ensures "mailto" <= l.href ==> a.target == None && a.rel == None
    ensures !("mailto" <= l.href) ==> a.target == Some("_blank") && a.rel == Some("noopener noreferrer")
  {
    var mail := IsMailto(l.href);
    Anchor(l.caption, l.href, l.caption, l.value,
           if mail then None else Some("_blank"),
           if mail then None else Some("noopener noreferrer"))
  }

  /** `rel` is present exactly when `target` is `_blank`: both come from the
      same test. */
  lemma RelFollowsTarget(l: ContactLink)
    ensures RenderLink(l).rel.Some? <==> RenderLink(l).target == Some("_blank")
    ensures RenderLink(l).target.Some? ==> RenderLink(l).target == Some("_blank")
  {
  }

  /** The test is a plain prefix test on "mailto": any href that begins with
      those six characters counts, with or without the colon, and one where
      they appear later does not. */
  lemma PrefixIsLiteral()
    ensures RenderLink(ContactLink("", "", "mailto")).target == None
    ensures RenderLink(ContactLink("", "", "mailtobox.example")).target == None
    ensures RenderLink(ContactLink("", "", " mailto:x@y")).target == Some("_blank")
    ensures RenderLink(ContactLink("", "", "MAILTO:x@y")).target == Some("_blank")
  {
    assert !(" mailto:x@y"[..6] == "mailto") by { assert " mailto:x@y"[0] == ' '; }
    assert !("MAILTO:x@y"[..6] == "mailto") by { assert "MAILTO:x@y"[0] == 'M'; }
  }

  /** The links render one anchor each, in declared order. */
  function RenderLinks(links: seq<ContactLink>): (anchors: seq<Anchor>)
    ensures |anchors| == |links|
    ensures forall k :: 0 <= k < |links| ==> anchors[k] == RenderLink(links[k])
  {
    seq(|links|, k requires 0 <= k < |links| => RenderLink(links[k]))
  }

  /** Of the declared links only the first, Email, is a mail link; the other
      two open in a new tab; the labels used as keys are distinct. */
  lemma DeclaredLinks()
    ensures |RenderLinks(Links())| == 3
    ensures RenderLinks(Links())[0].key == "Email" && RenderLinks(Links())[0].target == None
    ensures forall k :: 1 <= k < 3 ==> RenderLinks(Links())[k].target == Some("_blank")
    ensures forall i, j :: 0 <= i < j < 3 ==> RenderLinks(Links())[i].key != RenderLinks(Links())[j].key
  {
    var ls := Links();
    assert ls[1].href[0] == 'h' && ls[2].href[0] == 'h';
    assert ls[0].caption[0] == 'E' && ls[1].caption[0] == 'L' && ls[2].caption[0] == 'U';
  }
}

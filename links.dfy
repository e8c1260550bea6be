/**
 * Link collection: the candidate links of a message (getRawLinks), their
 * resolution into direct links whose filename an attachment may override
 * (getFileLinks), and the removal of repeated links keeping the first
 * occurrence (trimDuplicateLinks).
 */
module LinkCollection {
  import opened Wrappers
  import opened Chat
  import opened ResolverDispatch

  /** A link to download and the filename suggested for it ("" for none). */
  datatype FileItem = FileItem(link: string, filename: string)

  /** The links that occur in `items`. */
  function Links(items: seq<FileItem>): set<string> {
    set i | 0 <= i < |items| :: items[i].link
  }

  predicate NoDuplicateLinks(items: seq<FileItem>) {
    forall i, j :: 0 <= i < j < |items| ==> items[i].link != items[j].link
  }

  lemma LinksAppend(items: seq<FileItem>, x: FileItem)
    ensures Links(items + [x]) == Links(items) + {x.link}
  {
    var s := items + [x];
    assert forall i :: 0 <= i < |items| ==> s[i] == items[i];
    assert s[|items|] == x;
  }

  // ---------------------------------------------------------------------
  // trimDuplicateLinks
  // ---------------------------------------------------------------------

  /** Reference definition: an item is kept exactly when no earlier item has its link. */
  function TrimDuplicates(items: seq<FileItem>): seq<FileItem> {
    if |items| == 0 then []
    else
      var init, last := items[..|items| - 1], items[|items| - 1];
      if last.link in Links(init) then TrimDuplicates(init) else TrimDuplicates(init) + [last]
  }

  /** trimDuplicateLinks: one pass that remembers the links it has seen. */
  method TrimDuplicateLinks(items: seq<FileItem>) returns (result: seq<FileItem>)
    ensures result == TrimDuplicates(items)
  {
    result := [];
    var seen: set<string> := {};
    for i := 0 to |items|
      invariant result == TrimDuplicates(items[..i])
      invariant seen == Links(items[..i])
    {
      assert items[..i + 1] == items[..i] + [items[i]];
      LinksAppend(items[..i], items[i]);
      if items[i].link !in seen {
        seen := seen + {items[i].link};
        result := result + [items[i]];
      }
    }
    assert items[..|items|] == items;
  }

  /** The result repeats no link and keeps every link of the input. */
  lemma {:induction false} TrimLinks(items: seq<FileItem>)
    ensures NoDuplicateLinks(TrimDuplicates(items))
    ensures Links(TrimDuplicates(items)) == Links(items)
    decreases |items|
  {
    if |items| > 0 {
      var init, last := items[..|items| - 1], items[|items| - 1];
      assert items == init + [last];
      LinksAppend(init, last);
      TrimLinks(init);
      if last.link !in Links(init) {
        LinksAppend(TrimDuplicates(init), last);
      }
    }
  }

  /** Index of the first item whose link is `l`. */
  function FirstIndex(items: seq<FileItem>, l: string): (k: nat)
    requires l in Links(items)
    ensures k < |items| && items[k].link == l
    ensures forall m :: 0 <= m < k ==> items[m].link != l
  {
    if items[0].link == l then 0
    else
      assert l in Links(items[1..]) by {
        var i :| 0 <= i < |items| && items[i].link == l;
        assert items[1..][i - 1] == items[i];
      }
      1 + FirstIndex(items[1..], l)
  }

  /** Appending an item does not move the first occurrence of a link already present. */
  lemma FirstIndexAppend(items: seq<FileItem>, x: FileItem, l: string)
    requires l in Links(items)
    ensures l in Links(items + [x]) && FirstIndex(items + [x], l) == FirstIndex(items, l)
  {
    LinksAppend(items, x);
    var s, b := items + [x], FirstIndex(items, l);
    forall m | 0 <= m <= b ensures s[m] == items[m] { }
  }

  /** Within a sequence extended by one item, the old links keep their first
      index, and a new link is first found at the end. */
  lemma FirstIndexAfterAppend(init: seq<FileItem>, last: FileItem)
    ensures forall l | l in Links(init) ::
              l in Links(init + [last]) && FirstIndex(init + [last], l) == FirstIndex(init, l) < |init|
    ensures last.link !in Links(init) ==>
              last.link in Links(init + [last]) && FirstIndex(init + [last], last.link) == |init|
  {
    var items := init + [last];
    LinksAppend(init, last);
    forall l | l in Links(init)
      ensures FirstIndex(items, l) == FirstIndex(init, l) < |init|
    {
      FirstIndexAppend(init, last, l);
    }
    if last.link !in Links(init) {
      forall m | 0 <= m < |init| ensures items[m].link != last.link {
        assert items[m] == init[m];
      }
    }
  }

  /** Each kept item is the first item of the input with its link. */
  lemma {:induction false} TrimKeepsFirst(items: seq<FileItem>)
    ensures Links(TrimDuplicates(items)) == Links(items)
    ensures forall j :: 0 <= j < |TrimDuplicates(items)| ==>
              TrimDuplicates(items)[j] == items[FirstIndex(items, TrimDuplicates(items)[j].link)]
    decreases |items|
  {
    TrimLinks(items);
    if |items| > 0 {
      var init, last := items[..|items| - 1], items[|items| - 1];
      assert items == init + [last];
      TrimKeepsFirst(init);
      TrimLinks(init);
      FirstIndexAfterAppend(init, last);
      var t, r := TrimDuplicates(init), TrimDuplicates(items);
      forall j | 0 <= j < |r|
        ensures r[j] == items[FirstIndex(items, r[j].link)]
      {
        if j < |t| {
          assert r[j] == t[j];
          assert t[j].link in Links(t);
          assert items[FirstIndex(init, t[j].link)] == init[FirstIndex(init, t[j].link)];
        }
      }
    }
  }

  /** The kept items stand in the order of their first occurrences: with
      TrimKeepsFirst, the result is the subsequence of first occurrences. */
  lemma {:induction false} TrimKeepsOrder(items: seq<FileItem>)
    ensures Links(TrimDuplicates(items)) == Links(items)
    ensures forall j1, j2 :: 0 <= j1 < j2 < |TrimDuplicates(items)| ==>
              FirstIndex(items, TrimDuplicates(items)[j1].link) < FirstIndex(items, TrimDuplicates(items)[j2].link)
    decreases |items|
  {
    TrimLinks(items);
    if |items| > 0 {
      var init, last := items[..|items| - 1], items[|items| - 1];
      assert items == init + [last];
      TrimKeepsOrder(init);
      TrimLinks(init);
      FirstIndexAfterAppend(init, last);
      var t, r := TrimDuplicates(init), TrimDuplicates(items);
      forall j | 0 <= j < |t| ensures r[j] == t[j] && t[j].link in Links(init) {
        assert t[j].link in Links(t);
      }
    }
  }

  /** A sequence without repeated links is its own trimmed form. */
  lemma {:induction false} TrimNoDuplicates(items: seq<FileItem>)
    requires NoDuplicateLinks(items)
    ensures TrimDuplicates(items) == items
    decreases |items|
  {
    if |items| > 0 {
      var init, last := items[..|items| - 1], items[|items| - 1];
      assert items == init + [last];
      TrimNoDuplicates(init);
      forall i | 0 <= i < |init| ensures init[i].link != last.link {
        assert init[i] == items[i];
      }
    }
  }

  /** Trimming twice is trimming once. */
  lemma TrimIdempotent(items: seq<FileItem>)
    ensures TrimDuplicates(TrimDuplicates(items)) == TrimDuplicates(items)
  {
    TrimLinks(items);
    TrimNoDuplicates(TrimDuplicates(items));
  }

  // ---------------------------------------------------------------------
  // getRawLinks
  // ---------------------------------------------------------------------

  function AttachmentItems(attachments: seq<Attachment>): (r: seq<FileItem>)
    ensures |r| == |attachments|
  {
    seq(|attachments|, i requires 0 <= i < |attachments| => FileItem(attachments[i].url, attachments[i].filename))
  }

  function UrlItems(urls: seq<string>): (r: seq<FileItem>)
    ensures |r| == |urls|
  {
    seq(|urls|, i requires 0 <= i < |urls| => FileItem(urls[i], ""))
  }

  lemma AttachmentItemsStep(attachments: seq<Attachment>, i: nat)
    requires i < |attachments|
    ensures AttachmentItems(attachments[..i + 1])
            == AttachmentItems(attachments[..i]) + [FileItem(attachments[i].url, attachments[i].filename)]
  {
  }

  lemma UrlItemsStep(urls: seq<string>, i: nat)
    requires i < |urls|
    ensures UrlItems(urls[..i + 1]) == UrlItems(urls[..i]) + [FileItem(urls[i], "")]
  {
  }

  /** The links one embed contributes: its URL, its image's, its video's, each when set. */
  function EmbedItems(e: Embed): seq<FileItem> {
    (if e.url != "" then [FileItem(e.url, "")] else [])
    + (if e.image.Some? && e.image.value != "" then [FileItem(e.image.value, "")] else [])
    + (if e.video.Some? && e.video.value != "" then [FileItem(e.video.value, "")] else [])
  }

  function AllEmbedItems(embeds: seq<Embed>): seq<FileItem> {
    if |embeds| == 0 then [] else AllEmbedItems(embeds[..|embeds| - 1]) + EmbedItems(embeds[|embeds| - 1])
  }

  /** The links of one more embed follow those already collected after `pre`. */
  lemma AllEmbedItemsStep(pre: seq<FileItem>, embeds: seq<Embed>, i: nat)
    requires i < |embeds|
    ensures pre + AllEmbedItems(embeds[..i + 1]) == (pre + AllEmbedItems(embeds[..i])) + EmbedItems(embeds[i])
  {
    assert embeds[..i + 1][..i] == embeds[..i];
  }

  /** The candidate links of a message: attachments, then the URLs found in its
      text (by `findUrls`, the strict URL scanner), then the embeds' links. */
  function RawLinks(m: Message, findUrls: string -> seq<string>): seq<FileItem> {
    AttachmentItems(m.attachments) + UrlItems(findUrls(m.content)) + AllEmbedItems(m.embeds)
  }

  /** getRawLinks. It also replaces a missing author with the empty user, a change
      the caller's message keeps; `author` is that author. */
  method GetRawLinks(m: Message, findUrls: string -> seq<string>) returns (links: seq<FileItem>, author: User)
    ensures links == RawLinks(m, findUrls)
    ensures author == m.author.GetOr(EmptyUser)
  {
    author := if m.author.Some? then m.author.value else EmptyUser;
    links := [];
    for i := 0 to |m.attachments|
      invariant links == AttachmentItems(m.attachments[..i])
    {
      AttachmentItemsStep(m.attachments, i);
      links := links + [FileItem(m.attachments[i].url, m.attachments[i].filename)];
    }
    assert m.attachments[..|m.attachments|] == m.attachments;
    var found := findUrls(m.content);
    var afterAttachments := links;
    for i := 0 to |found|
      invariant links == afterAttachments + UrlItems(found[..i])
    {
      UrlItemsStep(found, i);
      links := links + [FileItem(found[i], "")];
    }
    assert found[..|found|] == found;
    var beforeEmbeds := links;
    for i := 0 to |m.embeds|
      invariant links == beforeEmbeds + AllEmbedItems(m.embeds[..i])
    {
      var e := m.embeds[i];
      ghost var start := links;
      if e.url != "" {
        links := links + [FileItem(e.url, "")];
      }
      if e.image.Some? && e.image.value != "" {
        links := links + [FileItem(e.image.value, "")];
      }
      if e.video.Some? && e.video.value != "" {
        links := links + [FileItem(e.video.value, "")];
      }
      assert links == start + EmbedItems(e);
      AllEmbedItemsStep(beforeEmbeds, m.embeds, i);
    }
    assert m.embeds[..|m.embeds|] == m.embeds;
  }

  /** Attachments come first, in order and with their filenames; every other
      candidate carries no filename and no empty embed link is collected. */
  lemma {:induction false} RawLinksLayout(m: Message, findUrls: string -> seq<string>)
    ensures |RawLinks(m, findUrls)| >= |m.attachments| + |findUrls(m.content)|
    ensures forall k :: 0 <= k < |m.attachments| ==>
              RawLinks(m, findUrls)[k] == FileItem(m.attachments[k].url, m.attachments[k].filename)
    ensures forall k :: 0 <= k < |findUrls(m.content)| ==>
              RawLinks(m, findUrls)[|m.attachments| + k] == FileItem(findUrls(m.content)[k], "")
    ensures forall k :: |m.attachments| <= k < |RawLinks(m, findUrls)| ==> RawLinks(m, findUrls)[k].filename == ""
    ensures forall k :: |m.attachments| + |findUrls(m.content)| <= k < |RawLinks(m, findUrls)| ==>
              RawLinks(m, findUrls)[k].link != ""
  {
    EmbedLinksNamed(m.embeds);
  }

  lemma {:induction false} EmbedLinksNamed(embeds: seq<Embed>)
    ensures forall k :: 0 <= k < |AllEmbedItems(embeds)| ==>
              AllEmbedItems(embeds)[k].filename == "" && AllEmbedItems(embeds)[k].link != ""
    decreases |embeds|
  {
    if |embeds| > 0 {
      EmbedLinksNamed(embeds[..|embeds| - 1]);
    }
  }

  // ---------------------------------------------------------------------
  // getFileLinks
  // ---------------------------------------------------------------------

  /** The filename a resolved link gets: the attachment's, when the candidate came
      with one, else the one the resolver suggested. */
  function ChosenFilename(raw: FileItem, resolved: map<string, string>, link: string): string
    requires link in resolved
  {
    if raw.filename != "" then raw.filename else resolved[link]
  }

  /** The resolution of every candidate, in order. */
  function ResolveAll(d: Dispatcher, raw: seq<FileItem>, channelID: string): (r: seq<map<string, string>>)
    ensures |r| == |raw|
    ensures forall k :: 0 <= k < |raw| ==> r[k] == GetDownloadLinks(d, raw[k].link, channelID)
  {
    seq(|raw|, k requires 0 <= k < |raw| => GetDownloadLinks(d, raw[k].link, channelID))
  }

  /** Every link some resolution produced. */
  function AllResolved(resolved: seq<map<string, string>>): set<string> {
    if |resolved| == 0 then {}
    else AllResolved(resolved[..|resolved| - 1]) + resolved[|resolved| - 1].Keys
  }

  /** The first candidate whose resolution produced `link`; `|resolved|` if none did. */
  function FirstResolving(resolved: seq<map<string, string>>, link: string): (r: nat)
    ensures r <= |resolved|
    ensures forall k :: 0 <= k < r ==> link !in resolved[k]
    ensures r < |resolved| ==> link in resolved[r]
    ensures r == |resolved| <==> link !in AllResolved(resolved)
    decreases |resolved|
  {
    if |resolved| == 0 then 0
    else
      var r := FirstResolving(resolved[..|resolved| - 1], link);
      if r < |resolved| - 1 then r
      else if link in resolved[|resolved| - 1] then |resolved| - 1
      else |resolved|
  }

  /** Every link of `items` has a first resolver among the first `bound` candidates,
      and its first occurrence in `items` carries the filename that resolver chose. */
  ghost predicate FirstOccurrencesNamed(items: seq<FileItem>, raw: seq<FileItem>,
                                        resolved: seq<map<string, string>>, bound: nat)
    requires |resolved| == |raw|
  {
    forall l :: l in Links(items) ==>
      var r := FirstResolving(resolved, l);
      r < bound && r < |raw| && items[FirstIndex(items, l)].filename == ChosenFilename(raw[r], resolved[r], l)
  }

  /** Links first occur in `items` in the order of the candidates that first
      resolved to them. */
  ghost predicate FirstOccurrencesOrdered(items: seq<FileItem>, resolved: seq<map<string, string>>) {
    forall l1, l2 :: l1 in Links(items) && l2 in Links(items) && FirstIndex(items, l1) < FirstIndex(items, l2)
      ==> FirstResolving(resolved, l1) <= FirstResolving(resolved, l2)
  }

  /** `a` is a prefix of `b`. */
  ghost predicate IsPrefix(a: seq<FileItem>, b: seq<FileItem>) {
    |a| <= |b| && b[..|a|] == a
  }

  /** Extending a sequence does not move the first occurrence of a link already present. */
  lemma FirstIndexPrefix(a: seq<FileItem>, b: seq<FileItem>, l: string)
    requires IsPrefix(a, b) && l in Links(a)
    ensures l in Links(b) && FirstIndex(b, l) == FirstIndex(a, l)
  {
    var k := FirstIndex(a, l);
    assert b[k] == a[k];
    forall m | 0 <= m <= k ensures b[m] == a[m] { assert b[..|a|][m] == b[m]; }
  }

  /** Every link of `done` that `items` lacks first occurs in `extended` with the
      filename the candidate `rawLink` chooses for it. */
  ghost predicate NewLinksNamed(items: seq<FileItem>, extended: seq<FileItem>, rawLink: FileItem,
                                downloadLinks: map<string, string>, done: set<string>)
  {
    forall l :: l in done - Links(items) ==>
      l in downloadLinks && l in Links(extended)
      && extended[FirstIndex(extended, l)].filename == ChosenFilename(rawLink, downloadLinks, l)
  }

  /** One step of the inner loop of getFileLinks keeps its invariant. */
  lemma AppendStep(items: seq<FileItem>, extended: seq<FileItem>, rawLink: FileItem,
                   downloadLinks: map<string, string>, done: set<string>, link: string)
    requires link in downloadLinks && done <= downloadLinks.Keys
    requires IsPrefix(items, extended)
    requires Links(extended) == Links(items) + done
    requires NewLinksNamed(items, extended, rawLink, downloadLinks, done)
    ensures var item := FileItem(link, ChosenFilename(rawLink, downloadLinks, link));
            && IsPrefix(items, extended + [item])
            && Links(extended + [item]) == Links(items) + (done + {link})
            && NewLinksNamed(items, extended + [item], rawLink, downloadLinks, done + {link})
  {
    var item := FileItem(link, ChosenFilename(rawLink, downloadLinks, link));
    var ext := extended + [item];
    LinksAppend(extended, item);
    assert ext[..|items|] == items by { assert ext[..|extended|] == extended; }
    forall l | l in (done + {link}) - Links(items)
      ensures l in Links(ext) && ext[FirstIndex(ext, l)].filename == ChosenFilename(rawLink, downloadLinks, l)
    {
      if l in Links(extended) {
        FirstIndexAppend(extended, item, l);
      } else {
        assert FirstIndex(ext, l) == |extended|;
      }
    }
  }

  /** The inner loop of getFileLinks: appends one item per link of `downloadLinks`,
      visited in an arbitrary order, with the filename the candidate `rawLink` chooses. */
  method AppendResolved(items: seq<FileItem>, rawLink: FileItem, downloadLinks: map<string, string>)
    returns (extended: seq<FileItem>)
    ensures IsPrefix(items, extended)
    ensures Links(extended) == Links(items) + downloadLinks.Keys
    ensures NewLinksNamed(items, extended, rawLink, downloadLinks, downloadLinks.Keys)
  {
    extended := items;
    var remaining := downloadLinks.Keys;
    while remaining != {}
      invariant remaining <= downloadLinks.Keys
      invariant IsPrefix(items, extended)
      invariant Links(extended) == Links(items) + (downloadLinks.Keys - remaining)
      invariant NewLinksNamed(items, extended, rawLink, downloadLinks, downloadLinks.Keys - remaining)
      decreases remaining
    {
      var link :| link in remaining;
      var filename := downloadLinks[link];
      if rawLink.filename != "" {
        filename := rawLink.filename;
      }
      AppendStep(items, extended, rawLink, downloadLinks, downloadLinks.Keys - remaining, link);
      assert (downloadLinks.Keys - remaining) + {link} == downloadLinks.Keys - (remaining - {link});
      remaining := remaining - {link};
      extended := extended + [FileItem(link, filename)];
    }
  }

  /** getFileLinks over the candidates of `m`. The order in which the links of one
      resolution are visited is Go's map order, which is unspecified; the method
      picks them in an arbitrary order. Whatever that order: no link is repeated,
      every resolved link is there, each one carries the filename chosen for it
      by the first candidate that resolved to it, and the links stand in the order
      of those first candidates. */
  method GetFileLinks(d: Dispatcher, m: Message, findUrls: string -> seq<string>) returns (fileItems: seq<FileItem>)
    ensures NoDuplicateLinks(fileItems)
    ensures Links(fileItems) == AllResolved(ResolveAll(d, RawLinks(m, findUrls), m.channelID))
    ensures forall j :: 0 <= j < |fileItems| ==>
              var raw := RawLinks(m, findUrls);
              var resolved := ResolveAll(d, raw, m.channelID);
              var r := FirstResolving(resolved, fileItems[j].link);
              r < |raw| && fileItems[j].filename == ChosenFilename(raw[r], resolved[r], fileItems[j].link)
    ensures var resolved := ResolveAll(d, RawLinks(m, findUrls), m.channelID);
            forall i, j :: 0 <= i < j < |fileItems| ==>
              FirstResolving(resolved, fileItems[i].link) <= FirstResolving(resolved, fileItems[j].link)
  {
    var rawLinks, _ := GetRawLinks(m, findUrls);
    ghost var resolved := ResolveAll(d, rawLinks, m.channelID);
    var items: seq<FileItem> := [];
    for i := 0 to |rawLinks|
      invariant Links(items) == AllResolved(resolved[..i])
      invariant FirstOccurrencesNamed(items, rawLinks, resolved, i)
      invariant FirstOccurrencesOrdered(items, resolved)
    {
      var rawLink := rawLinks[i];
      var downloadLinks := GetDownloadLinks(d, rawLink.link, m.channelID);
      assert downloadLinks == resolved[i];
      var extended := AppendResolved(items, rawLink, downloadLinks);
      ExtendOrdered(items, extended, rawLinks, resolved, i);
      ExtendNamed(items, extended, rawLinks, resolved, i);
      items := extended;
    }
    assert resolved[..|rawLinks|] == resolved;
    fileItems := TrimDuplicateLinks(items);
    TrimKeepsFirst(items);
    TrimKeepsOrder(items);
    TrimLinks(items);
    forall j | 0 <= j < |fileItems|
      ensures var r := FirstResolving(resolved, fileItems[j].link);
              r < |rawLinks| && fileItems[j].filename == ChosenFilename(rawLinks[r], resolved[r], fileItems[j].link)
    {
      assert fileItems[j].link in Links(fileItems);
    }
  }

  /** One step of getFileLinks' outer loop keeps its invariant. */
  lemma ExtendNamed(items: seq<FileItem>, extended: seq<FileItem>, raw: seq<FileItem>,
                    resolved: seq<map<string, string>>, i: nat)
    requires |resolved| == |raw| && i < |raw|
    requires Links(items) == AllResolved(resolved[..i])
    requires FirstOccurrencesNamed(items, raw, resolved, i)
    requires Links(extended) == Links(items) + resolved[i].Keys
    requires IsPrefix(items, extended)
    requires NewLinksNamed(items, extended, raw[i], resolved[i], resolved[i].Keys)
    ensures Links(extended) == AllResolved(resolved[..i + 1])
    ensures FirstOccurrencesNamed(extended, raw, resolved, i + 1)
  {
    AllResolvedStep(resolved, i);
    forall l | l in Links(extended)
      ensures var r := FirstResolving(resolved, l);
              r < i + 1 && r < |raw| && extended[FirstIndex(extended, l)].filename == ChosenFilename(raw[r], resolved[r], l)
    {
      if l in Links(items) {
        var k := FirstIndex(items, l);
        FirstIndexPrefix(items, extended, l);
        assert extended[k] == extended[..|items|][k] == items[k];
      } else {
        assert l in resolved[i].Keys - Links(items);
        FirstResolvingAt(resolved, i, l);
        forall m | 0 <= m < |items| ensures extended[m].link != l {
          assert extended[m] == extended[..|items|][m] == items[m];
        }
      }
    }
  }

  /** One step of getFileLinks' outer loop keeps the links in the order of
      their first resolvers: the links it adds are first resolved by candidate
      `i` and come after every link already there, whose first resolver is earlier. */
  lemma ExtendOrdered(items: seq<FileItem>, extended: seq<FileItem>, raw: seq<FileItem>,
                      resolved: seq<map<string, string>>, i: nat)
    requires |resolved| == |raw| && i < |raw|
    requires Links(items) == AllResolved(resolved[..i])
    requires FirstOccurrencesNamed(items, raw, resolved, i)
    requires FirstOccurrencesOrdered(items, resolved)
    requires Links(extended) == Links(items) + resolved[i].Keys
    requires IsPrefix(items, extended)
    ensures FirstOccurrencesOrdered(extended, resolved)
  {
    forall l | l in Links(extended)
      ensures if l in Links(items)
              then FirstIndex(extended, l) == FirstIndex(items, l) < |items| && FirstResolving(resolved, l) < i
              else |items| <= FirstIndex(extended, l) && FirstResolving(resolved, l) == i
    {
      if l in Links(items) {
        FirstIndexPrefix(items, extended, l);
      } else {
        FirstResolvingAt(resolved, i, l);
        forall m | 0 <= m < |items| ensures extended[m].link != l {
          assert extended[m] == extended[..|items|][m] == items[m];
        }
      }
    }
  }

  lemma AllResolvedStep(resolved: seq<map<string, string>>, i: nat)
    requires i < |resolved|
    ensures AllResolved(resolved[..i + 1]) == AllResolved(resolved[..i]) + resolved[i].Keys
  {
    assert resolved[..i + 1][..i] == resolved[..i];
  }

  /** A link that the first `i` resolutions did not produce and the i-th did has
      the i-th candidate as its first resolver. */
  lemma FirstResolvingAt(resolved: seq<map<string, string>>, i: nat, link: string)
    requires i < |resolved| && link in resolved[i]
    requires link !in AllResolved(resolved[..i])
    ensures FirstResolving(resolved, link) == i
  {
    assert FirstResolving(resolved[..i], link) == i;
    forall k | 0 <= k < i ensures link !in resolved[k] {
      assert resolved[..i][k] == resolved[k];
    }
  }
}

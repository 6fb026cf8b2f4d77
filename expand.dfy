/** expandUrls: shortened links in a tweet's text are replaced by the forms
    listed in its entities, one str_replace per entity in list order. */
module UrlExpander {
  import opened Php
  import opened Tweets

  /** "http://t.co": expansion happens only when the text contains it. */
  function ShortLinkMarker(): Bytes
  {
    [104, 116, 116, 112, 58, 47, 47, 116, 46, 99, 111]
  }

  /** One str_replace: every occurrence of source becomes target. */
  datatype Rewrite = Rewrite(source: Bytes, target: Bytes)

  /** The url entities as rewrites url -> expanded_url. */
  function LinkRewrites(urls: seq<UrlEntity>): (r: seq<Rewrite>)
    ensures |r| == |urls|
    ensures forall i :: 0 <= i < |urls| ==> r[i] == Rewrite(urls[i].url, urls[i].expandedUrl)
  {
    seq(|urls|, i requires 0 <= i < |urls| => Rewrite(urls[i].url, urls[i].expandedUrl))
  }

  /** The media entities as rewrites url -> display_url. */
  function PhotoRewrites(media: seq<MediaEntity>): (r: seq<Rewrite>)
    ensures |r| == |media|
    ensures forall i :: 0 <= i < |media| ==> r[i] == Rewrite(media[i].url, media[i].displayUrl)
  {
    seq(|media|, i requires 0 <= i < |media| => Rewrite(media[i].url, media[i].displayUrl))
  }

  /** The rewrites applied in order, each to the result of the one before. */
  function ApplyRewrites(text: Bytes, rw: seq<Rewrite>): Bytes
    decreases |rw|
  {
    if rw == [] then text
    else ApplyRewrites(StrReplace(rw[0].source, rw[0].target, text), rw[1..])
  }

  /** The text expandUrls leaves in the tweet. */
  function ExpandedText(t: Tweet, expandLinks: bool, expandPhotos: bool): (r: Bytes)
    ensures !Contains(t.text, ShortLinkMarker()) ==> r == t.text
    ensures (!expandLinks || t.urls == []) && (!expandPhotos || t.media == []) ==> r == t.text
  {
    if !Contains(t.text, ShortLinkMarker()) then t.text
    else
      var linked := if expandLinks then ApplyRewrites(t.text, LinkRewrites(t.urls)) else t.text;
      if expandPhotos then ApplyRewrites(linked, PhotoRewrites(t.media)) else linked
  }

  /** The loop of expandUrls: rewrite text in place, url entities first,
      then (when enabled) media entities. Only the text changes. */
  method ExpandUrls(t: Tweet, expandLinks: bool, expandPhotos: bool) returns (r: Tweet)
    ensures r == t.(text := ExpandedText(t, expandLinks, expandPhotos))
    ensures !Contains(t.text, ShortLinkMarker()) ==> r == t
  {
    r := t;
    if Contains(t.text, ShortLinkMarker()) {
      if expandLinks {
        ghost var links := LinkRewrites(t.urls);
        var i := 0;
        while i < |t.urls|
          invariant 0 <= i <= |t.urls|
          invariant r == t.(text := r.text)
          invariant ApplyRewrites(r.text, links[i..]) == ApplyRewrites(t.text, links)
        {
          RewriteStep(r.text, links, i);
          r := r.(text := StrReplace(t.urls[i].url, t.urls[i].expandedUrl, r.text));
          i := i + 1;
        }
        assert links[|t.urls|..] == [];
      }
      if expandPhotos {
        ghost var linked := r.text;
        ghost var photos := PhotoRewrites(t.media);
        var i := 0;
        while i < |t.media|
          invariant 0 <= i <= |t.media|
          invariant r == t.(text := r.text)
          invariant ApplyRewrites(r.text, photos[i..]) == ApplyRewrites(linked, photos)
        {
          RewriteStep(r.text, photos, i);
          r := r.(text := StrReplace(t.media[i].url, t.media[i].displayUrl, r.text));
          i := i + 1;
        }
        assert photos[|t.media|..] == [];
      }
    }
  }

  /** Applying rewrite i, then those after it, is applying rewrites i onwards. */
  lemma RewriteStep(text: Bytes, rw: seq<Rewrite>, i: int)
    requires 0 <= i < |rw|
    ensures ApplyRewrites(StrReplace(rw[i].source, rw[i].target, text), rw[i + 1..]) == ApplyRewrites(text, rw[i..])
  {
    assert rw[i..][1..] == rw[i + 1..];
    assert rw[i..][0] == rw[i];
  }

  /** Rewrites whose sources do not occur in the text change nothing. */
  lemma {:induction false} ApplyRewritesAbsent(text: Bytes, rw: seq<Rewrite>)
    requires forall i :: 0 <= i < |rw| ==> !Contains(text, rw[i].source)
    ensures ApplyRewrites(text, rw) == text
    decreases |rw|
  {
    if rw != [] {
      StrReplaceAbsent(rw[0].source, rw[0].target, text);
      ApplyRewritesAbsent(text, rw[1..]);
    }
  }

  /** Expanding an already expanded text is a no-op once no url entity's
      short link is left in it (the call site's settings: links on, photos off). */
  lemma ExpansionSettles(t: Tweet)
    requires forall i :: 0 <= i < |t.urls| ==> !Contains(ExpandedText(t, true, false), t.urls[i].url)
    ensures ExpandedText(t.(text := ExpandedText(t, true, false)), true, false) == ExpandedText(t, true, false)
  {
    var once := ExpandedText(t, true, false);
    ApplyRewritesAbsent(once, LinkRewrites(t.urls));
  }

  /** Expansion is not idempotent in general: a link whose expanded form
      starts with the short link itself grows again on a second pass. */
  lemma ReexpansionGrows(u: Bytes, x: Byte)
    requires |u| > 1 && Contains(u, ShortLinkMarker())
    ensures var t := Tweet([], u, User(0, []), [UrlEntity(u, u + [x])], []);
            ExpandedText(t, true, false) == u + [x] &&
            ExpandedText(t.(text := u + [x]), true, false) == u + [x, x]
  {
    var t := Tweet([], u, User(0, []), [UrlEntity(u, u + [x])], []);
    var rw := LinkRewrites(t.urls);
    ReplaceWhole(u, u + [x]);
    assert ApplyRewrites(u, rw) == ApplyRewrites(u + [x], rw[1..]) == u + [x];
    var m := StrPos(u, ShortLinkMarker()).value;
    assert (u + [x])[m..m + |ShortLinkMarker()|] == u[m..m + |ShortLinkMarker()|];
    assert OccursAt(u + [x], ShortLinkMarker(), m);
    assert (u + [x])[..|u|] == u && (u + [x])[|u|..] == [x];
    assert ReplaceScan(u, u + [x], [x]) == [x];
    assert StrReplace(u, u + [x], u + [x]) == (u + [x]) + [x];
    assert ApplyRewrites(u + [x], rw) == ApplyRewrites(u + [x, x], rw[1..]) == u + [x, x];
  }
}

/** The share link shown on each card and copied to the clipboard. */
module Links {
  import opened Records

  datatype Option<T> = None | Some(value: T)

  /** The two things a link encodes. */
  datatype LinkParts = LinkParts(isPrivate: bool, id: string)

  const BaseUrl: string := "https://fotoline.ru"
  const PrivateSegment: string := "private"
  const PublicSegment: string := "public"

  /** The middle path segment: "private" or "public". */
  function LinkType(isPrivate: bool): (seg: string)
  {
    if isPrivate then PrivateSegment else PublicSegment
  }

  /** The link of a record: base URL, the privacy segment and the id,
      separated by slashes.  Only the id and the privacy flag are read, and
      parsing the link gives back exactly those two, whatever characters
      the id holds. */
  function GenerateLink(f: FileRecord): (link: string)
    ensures ParseLink(link) == Some(LinkParts(f.isPrivate, f.id))
  {
    var head := BaseUrl + "/";
    var seg := LinkType(f.isPrivate) + "/";
    var link := BaseUrl + "/" + LinkType(f.isPrivate) + "/" + f.id;
    assert link == head + (seg + f.id);
    assert head <= link;
    assert link[|head|..] == seg + f.id;
    assert !f.isPrivate ==> (seg + f.id)[1] == 'u';
    assert !f.isPrivate ==> !(PrivateSegment + "/" <= seg + f.id);
    link
  }

  /** Splits a string of the shape GenerateLink produces back into its
      privacy flag and id; None for any other string. */
  function ParseLink(link: string): (p: Option<LinkParts>)
  {
    var head := BaseUrl + "/";
    if !(head <= link) then None
    else
      var rest := link[|head|..];
      if PrivateSegment + "/" <= rest then Some(LinkParts(true, rest[|PrivateSegment| + 1..]))
      else if PublicSegment + "/" <= rest then Some(LinkParts(false, rest[|PublicSegment| + 1..]))
      else None
  }

  /** Two records have the same link exactly when they agree on the id and
      on the privacy flag. */
  lemma GenerateLinkInjective(f: FileRecord, g: FileRecord)
    ensures GenerateLink(f) == GenerateLink(g) <==> f.id == g.id && f.isPrivate == g.isPrivate
  {
    if GenerateLink(f) == GenerateLink(g) {
      assert ParseLink(GenerateLink(f)) == ParseLink(GenerateLink(g));
    }
  }

  /** Every link is three pieces: "https://fotoline.ru/", then "private"
      for a private record and "public" otherwise, then "/" and the id. */
  lemma GenerateLinkShape(f: FileRecord)
    ensures var link, head, tail := GenerateLink(f), |BaseUrl| + 1, |f.id| + 1;
            |link| >= head + tail &&
            link[..head] == BaseUrl + "/" &&
            link[|link| - tail..] == "/" + f.id &&
            link[head..|link| - tail] == (if f.isPrivate then "private" else "public")
  {
    var link, head, tail := GenerateLink(f), |BaseUrl| + 1, |f.id| + 1;
    var mid := LinkType(f.isPrivate);
    assert link == (BaseUrl + "/") + mid + ("/" + f.id);
    assert link[..head] == BaseUrl + "/";
    assert link[|link| - tail..] == "/" + f.id;
    assert link[head..|link| - tail] == mid;
  }

  /** Flipping the privacy flag changes the link, but never its base URL or
      its trailing id: the two links share "https://fotoline.ru/" and
      "/" + id, and their middle segments are "private" and "public". */
  lemma ToggledLinkDiffersOnlyInSegment(f: FileRecord)
    ensures var lf, lg := GenerateLink(f), GenerateLink(f.(isPrivate := !f.isPrivate));
            var head, tail := |BaseUrl| + 1, |f.id| + 1;
            lf != lg &&
            |lf| >= head + tail && |lg| >= head + tail &&
            lf[..head] == lg[..head] &&
            lf[|lf| - tail..] == lg[|lg| - tail..] &&
            {lf[head..|lf| - tail], lg[head..|lg| - tail]} == {"private", "public"}
  {
    var g := f.(isPrivate := !f.isPrivate);
    GenerateLinkInjective(f, g);
    GenerateLinkShape(f);
    GenerateLinkShape(g);
  }

  /** The link of a freshly uploaded record is its public link. */
  lemma NewRecordLinkIsPublic(file: SourceFile, now: nat, index: nat)
    ensures ParseLink(GenerateLink(MakeRecord(file, now, index))) ==
            Some(LinkParts(false, RecordId(now, index)))
  {
  }
}

/** Splitting the operator's own image into registry, repository and tag (internal/utils/getPodDetails.go),
    and printing it back into generated deployments. */
module Images {
  import opened Wrappers
  import opened Text

  datatype ImageDetails = ImageDetails(registry: string, repository: string, tag: string)

  /** None stands for the "invalid image format" error. */
  function ParseImage(image: string): Option<ImageDetails> {
    var parts := Split(image, '/');
    if |parts| < 2 then None
    else
      var imageAndTag := Join(parts[1..], '/');
      var imageParts := Split(imageAndTag, ':');
      Some(ImageDetails(parts[0], imageParts[0], if |imageParts| > 1 then imageParts[1] else "latest"))
  }

  /** What generated containers use as their image. */
  function PrintImage(d: ImageDetails): string {
    d.registry + "/" + d.repository + ":" + d.tag
  }

  function AfterFirstSlash(image: string): string
    requires '/' in image
  {
    image[IndexOf(image, '/') + 1..]
  }

  lemma ParseAtFirstSlash(image: string)
    requires '/' in image
    ensures Split(image, '/')[0] == image[..IndexOf(image, '/')]
    ensures |Split(image, '/')| >= 2 && Join(Split(image, '/')[1..], '/') == AfterFirstSlash(image)
  {
    CutAtFirst(image, '/');
    SplitAtFirst(image[..IndexOf(image, '/')], '/', AfterFirstSlash(image));
    JoinSplit(AfterFirstSlash(image), '/');
  }

  /** An image is refused exactly when it has no slash. */
  lemma ParseFailsIffNoSlash(image: string)
    ensures ParseImage(image).None? <==> '/' !in image
  {
    if '/' in image { ParseAtFirstSlash(image); } else { SplitWithout(image, '/'); }
  }

  lemma ReprintWithoutTag(image: string)
    requires '/' in image && Count(AfterFirstSlash(image), ':') == 0
    ensures ParseImage(image).Some? && PrintImage(ParseImage(image).value) == image + ":latest"
  {
    ParseAtFirstSlash(image);
    CutAtFirst(image, '/');
    CountZero(AfterFirstSlash(image), ':');
    SplitWithout(AfterFirstSlash(image), ':');
  }

  lemma ParsePieces(registry: string, name: string, tail: string)
    requires '/' !in registry && ':' !in name
    ensures ParseImage(registry + "/" + (name + ":" + tail))
            == Some(ImageDetails(registry, name, Split(tail, ':')[0]))
  {
    hide Split, Join;
    var rest := name + ":" + tail;
    SplitAtFirst(registry, '/', rest);
    JoinSplit(rest, '/');
    assert ([registry] + Split(rest, '/'))[1..] == Split(rest, '/');
    SplitAtFirst(name, ':', tail);
  }

  lemma CountPieces(name: string, tail: string)
    requires ':' !in name
    ensures Count(name + ":" + tail, ':') == 1 + Count(tail, ':')
  {
    CountZero(name, ':');
    CountConcat(name, ":" + tail, ':');
    assert name + (":" + tail) == name + ":" + tail;
    assert (":" + tail)[1..] == tail;
  }

  lemma Concatenated(registry: string, name: string, tail: string)
    ensures registry + "/" + (name + ":" + tail) == registry + "/" + name + ":" + tail
  {
  }

  lemma TagCutOff(registry: string, name: string, tag: string, lost: string)
    ensures registry + "/" + name + ":" + tag + ":" <= registry + "/" + (name + ":" + (tag + ":" + lost))
  {
    Concatenated(registry, name, tag + ":" + lost);
    var printed := registry + "/" + name + ":" + tag;
    assert registry + "/" + name + ":" + (tag + ":" + lost) == (printed + ":") + lost;
  }

  lemma ReprintPieces(registry: string, name: string, tail: string)
    requires '/' !in registry && ':' !in name
    ensures var image := registry + "/" + (name + ":" + tail);
            && ParseImage(image).Some?
            && (':' !in tail ==> PrintImage(ParseImage(image).value) == image)
            && (':' in tail ==> PrintImage(ParseImage(image).value) + ":" <= image)
  {
    hide ParseImage, Split, Join;
    ParsePieces(registry, name, tail);
    if ':' !in tail {
      SplitWithout(tail, ':');
      Concatenated(registry, name, tail);
    } else {
      CutAtFirst(tail, ':');
      var tag, lost := tail[..IndexOf(tail, ':')], tail[IndexOf(tail, ':') + 1..];
      SplitAtFirst(tag, ':', lost);
      TagCutOff(registry, name, tag, lost);
    }
  }

  lemma ReprintTagged(image: string)
    requires '/' in image && ':' in AfterFirstSlash(image)
    ensures ParseImage(image).Some?
    ensures Count(AfterFirstSlash(image), ':') == 1 ==> PrintImage(ParseImage(image).value) == image
    ensures Count(AfterFirstSlash(image), ':') > 1 ==> PrintImage(ParseImage(image).value) + ":" <= image
  {
    hide ParseImage, PrintImage, Count;
    CutAtFirst(image, '/');
    var registry, rest := image[..IndexOf(image, '/')], AfterFirstSlash(image);
    CutAtFirst(rest, ':');
    var name, tail := rest[..IndexOf(rest, ':')], rest[IndexOf(rest, ':') + 1..];
    assert image == registry + "/" + (name + ":" + tail);
    CountPieces(name, tail);
    CountZero(tail, ':');
    ReprintPieces(registry, name, tail);
  }

  /** Reprinting gives the image back exactly when one colon follows the first slash; without one the
      tag becomes "latest", and with more everything from the second colon on is lost. */
  lemma ReprintParsed(image: string)
    requires '/' in image
    ensures ParseImage(image).Some?
    ensures PrintImage(ParseImage(image).value) == image <==> Count(AfterFirstSlash(image), ':') == 1
    ensures Count(AfterFirstSlash(image), ':') == 0 ==> PrintImage(ParseImage(image).value) == image + ":latest"
    ensures Count(AfterFirstSlash(image), ':') > 1 ==> PrintImage(ParseImage(image).value) + ":" <= image
  {
    hide ParseImage, PrintImage;
    CountZero(AfterFirstSlash(image), ':');
    if ':' in AfterFirstSlash(image) {
      ReprintTagged(image);
    } else {
      ReprintWithoutTag(image);
    }
  }

  /** A printed triple parses to itself. */
  lemma ParsePrinted(d: ImageDetails)
    requires '/' !in d.registry && ':' !in d.repository && ':' !in d.tag
    ensures ParseImage(PrintImage(d)) == Some(d)
  {
    var rest := d.repository + ":" + d.tag;
    assert PrintImage(d) == d.registry + "/" + rest;
    SplitAtFirst(d.registry, '/', rest);
    JoinSplit(rest, '/');
    SplitAtFirst(d.repository, ':', d.tag);
    SplitWithout(d.tag, ':');
  }
}

/**
 * `Get_AMI`: the base image of the next build. The newest own image whose
 * name matches the lookup pattern, otherwise the image named by
 * DEFAULT_AMI_ID, otherwise nothing.
 */
module Selection {
  import opened Common
  import opened Text
  import opened Records

  /** What `Get_AMI` gives back. */
  datatype BaseImage =
    | Picked(image: Image)       // the list [ImageId, CreationDate]
    | NoCandidate                // `return False`: no match and no DEFAULT_AMI_ID
    | DefaultNotFound            // `return` (None): the DEFAULT_AMI_ID lookup raised
    | Raises(error: string)      // an exception leaves Get_AMI

  /** Text of the KeyError raised when the default lookup answered with no image. */
  const MissingImageIdError: string := "'ImageId'"

  /**
   * The last element of `sorted(images, key=CreationDate)`: its date is the
   * greatest, and every image after it has a strictly smaller date (the
   * sort is stable, so among equal dates the last one wins).
   */
  function NewestIndex(images: seq<Image>): (k: nat)
    requires |images| > 0
    ensures k < |images|
    ensures forall j :: 0 <= j < |images| ==> StrLe(images[j].creationDate, images[k].creationDate)
    ensures forall j :: k < j < |images| ==> StrLt(images[j].creationDate, images[k].creationDate)
  {
    if |images| == 1 then
      StrLeReflexive(images[0].creationDate);
      0
    else
      var n := |images| - 1;
      var k := NewestIndex(images[..n]);
      var best, last := images[k].creationDate, images[n].creationDate;
      if StrLe(best, last) then
        assert forall j :: 0 <= j < n ==> images[..n][j] == images[j];
        forall j | 0 <= j < n ensures StrLe(images[j].creationDate, last) {
          StrLeTransitive(images[j].creationDate, best, last);
        }
        StrLeReflexive(last);
        n
      else
        StrLeTotal(best, last);
        assert forall j :: 0 <= j < n ==> images[..n][j] == images[j];
        k
  }

  /** `Get_AMI()` against the answers of `describe_images`. */
  function SelectBase(cfg: Config, w: World): (b: BaseImage)
    ensures cfg.lookupPattern != "" && w.patternImages.Err? ==> b == Raises(w.patternImages.error)
    ensures cfg.lookupPattern != "" && w.patternImages.Ok? && |w.patternImages.value| > 0 ==>
              b.Picked? && (exists k :: 0 <= k < |w.patternImages.value| && b.image == w.patternImages.value[k]
                              && (forall j :: 0 <= j < |w.patternImages.value| ==>
                                    StrLe(w.patternImages.value[j].creationDate, b.image.creationDate))
                              && (forall j :: k < j < |w.patternImages.value| ==>
                                    StrLt(w.patternImages.value[j].creationDate, b.image.creationDate)))
    ensures (cfg.lookupPattern == "" || (w.patternImages.Ok? && w.patternImages.value == [])) ==>
              (cfg.defaultAmiId == "" ==> b == NoCandidate)
              && (cfg.defaultAmiId != "" ==>
                    match w.defaultImage
                    case DescribeRaised => b == DefaultNotFound
                    case DescribeEmpty => b.Raises?
                    case DescribeFound(img) => b == Picked(img))
  {
    var matched :=
      if cfg.lookupPattern == "" then Ok([])
      else w.patternImages;
    match matched
    case Err(e) => Raises(e)
    case Ok(images) =>
      if |images| > 0 then
        var k := NewestIndex(images);
        Picked(images[k])
      else if cfg.defaultAmiId == "" then NoCandidate
      else
        match w.defaultImage
        case DescribeRaised => DefaultNotFound
        // the response dict stays bound to ami_togo and has no 'ImageId'
        case DescribeEmpty => Raises(MissingImageIdError)
        case DescribeFound(img) => Picked(img)
  }

  /** With a pattern and at least one match, the default image is never consulted. */
  lemma MatchWinsOverDefault(cfg: Config, w: World, w': World)
    requires cfg.lookupPattern != "" && w.patternImages.Ok? && |w.patternImages.value| > 0
    requires w'.patternImages == w.patternImages
    ensures SelectBase(cfg, w) == SelectBase(cfg, w')
  {
  }

  /** Two images with the same date: the one listed later is picked. */
  lemma TieGoesToLast(a: Image, b: Image)
    requires a.creationDate == b.creationDate
    ensures NewestIndex([a, b]) == 1
  {
    StrLeReflexive(a.creationDate);
  }
}

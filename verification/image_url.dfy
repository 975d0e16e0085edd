/** The image URL normaliser: a stored image reference is used as is when it
    already looks absolute, and is otherwise served from the local back-end. */
module ImageUrl {
  import opened Strings

  /** The literal, case-sensitive prefix that marks an absolute reference. */
  const Scheme := "http"

  /** The back-end origin prepended to a relative reference. */
  const LocalServer := "http://localhost:3000"

  /** `getImageUrl`. */
  function GetImageUrl(img: string): (url: string)
    ensures StartsWith(url, Scheme)
    ensures EndsWith(url, img)
    ensures |url| >= |img|
  {
    PrefixOfConcat(LocalServer, img);
    assert StartsWith(LocalServer, Scheme);
    if StartsWith(img, Scheme) then img
    else
      StartsWithTrans(LocalServer + img, LocalServer, Scheme);
      LocalServer + img
  }

  /** The reference comes back unchanged exactly when it already starts with
      "http"; otherwise the result is the server origin followed directly by
      the reference, with no separator in between. */
  lemma GetImageUrlCases(img: string)
    ensures GetImageUrl(img) == img <==> StartsWith(img, Scheme)
    ensures !StartsWith(img, Scheme) ==>
              && StartsWith(GetImageUrl(img), LocalServer)
              && GetImageUrl(img)[|LocalServer|..] == img
              && |GetImageUrl(img)| == |LocalServer| + |img|
  {
    if !StartsWith(img, Scheme) {
      PrefixOfConcat(LocalServer, img);
      assert (LocalServer + img)[|LocalServer|..] == img;
      assert |LocalServer + img| != |img|;
    }
  }

  /** Normalising twice is the same as normalising once. */
  lemma GetImageUrlIdempotent(img: string)
    ensures GetImageUrl(GetImageUrl(img)) == GetImageUrl(img)
  {
  }
}

/** The home-page carousel: images shown four to a page, each slot 312
    pixels wide (a 280-pixel image with 16 pixels of margin on each side),
    the strip shifted left to show the current page, and a timer that
    advances the page and wraps around. */
module Carousel {
  import opened Common
  import opened Items

  const ImagesPerPage := 4
  const ItemWidth := 280
  const ItemMargin := 16
  const FullItemWidth := ItemWidth + ItemMargin * 2

  /** At least one page, even with no images. */
  function TotalPages(totalImages: nat): (pages: int)
    ensures pages >= 1
    ensures totalImages > 0 ==> ImagesPerPage * (pages - 1) < totalImages <= ImagesPerPage * pages
    ensures totalImages == 0 ==> pages == 1
  {
    if totalImages > 0 then CeilDiv(totalImages, ImagesPerPage) else 1
  }

  /** The horizontal shift of the strip for a page: none when everything
      fits on one page, whole pages before the last, and on the last page
      just far enough that the last four images fill the view. */
  function TranslateX(totalImages: nat, currentPage: int): int
  {
    if totalImages == 0 || totalImages <= ImagesPerPage then 0
    else
      var lastPageIndex := TotalPages(totalImages) - 1;
      if currentPage < lastPageIndex then -currentPage * ImagesPerPage * FullItemWidth
      else -Max0(totalImages - ImagesPerPage) * FullItemWidth
  }

  function Max0(x: int): int
  {
    if x >= 0 then x else 0
  }

  lemma FullItemWidthIs312()
    ensures FullItemWidth == 312
  {
  }

  /** The strip never moves for four images or fewer, and otherwise never
      scrolls right of the first image nor past the last one. */
  lemma TranslateXBounds(totalImages: nat, currentPage: int)
    requires 0 <= currentPage < TotalPages(totalImages)
    ensures totalImages <= ImagesPerPage ==> TranslateX(totalImages, currentPage) == 0
    ensures totalImages > ImagesPerPage ==>
              -(totalImages - ImagesPerPage) * FullItemWidth <= TranslateX(totalImages, currentPage) <= 0
  {
    if totalImages > ImagesPerPage && currentPage < TotalPages(totalImages) - 1 {
      var pages := TotalPages(totalImages);
      assert ImagesPerPage * currentPage <= ImagesPerPage * (pages - 2);
      assert currentPage * ImagesPerPage <= totalImages - ImagesPerPage;
    }
  }

  /** The first page starts at the first image; the last page ends at the
      last one. */
  lemma TranslateXEnds(totalImages: nat)
    requires totalImages > ImagesPerPage
    ensures TranslateX(totalImages, 0) == 0
    ensures TranslateX(totalImages, TotalPages(totalImages) - 1) == -(totalImages - ImagesPerPage) * FullItemWidth
  {
  }

  /** A page before the last is shifted by whole pages: its first image,
      number 4p, sits at the left edge. */
  lemma TranslateXBeforeLast(totalImages: nat, page: int)
    requires totalImages > ImagesPerPage && 0 <= page < TotalPages(totalImages) - 1
    ensures TranslateX(totalImages, page) == -(page * ImagesPerPage) * FullItemWidth
    ensures TranslateX(totalImages, page) == -1248 * page
  {
  }

  class AttireCarousel {
    const totalImages: nat
    var currentPage: int

    ghost predicate Valid()
      reads this
    {
      0 <= currentPage < TotalPages(totalImages)
    }

    constructor(images: seq<string>)
      ensures Valid()
      ensures totalImages == |images| && currentPage == 0
    {
      totalImages := |images|;
      currentPage := 0;
    }

    /** The shift for the page on screen. */
    function Offset(): int
      reads this
    {
      TranslateX(totalImages, currentPage)
    }

    /** One timer tick; the timer runs only when there is more than one page. */
    method Tick()
      requires Valid() && TotalPages(totalImages) > 1
      modifies this
      ensures Valid()
      ensures currentPage == (old(currentPage) + 1) % TotalPages(totalImages)
      ensures old(currentPage) == TotalPages(totalImages) - 1 ==> currentPage == 0
      ensures old(currentPage) < TotalPages(totalImages) - 1 ==> currentPage == old(currentPage) + 1
    {
      currentPage := (currentPage + 1) % TotalPages(totalImages);
    }

    /** A page dot was clicked; there is one dot per page. */
    method GoToPage(index: int)
      requires Valid() && 0 <= index < TotalPages(totalImages)
      modifies this
      ensures Valid() && currentPage == index
    {
      currentPage := index;
    }
  }

  /* ---------------- Image list ---------------- */

  const ApiBaseUrl := "http://localhost:4000"

  predicate HasImage(item: Item)
  {
    item.image != ""
  }

  function UploadUrl(image: string): string
  {
    ApiBaseUrl + "/uploads/" + image
  }

  /** The carousel's images: the upload address of every item that has an
      image, in inventory order. */
  function AttireImages(inventory: seq<Item>): (urls: seq<string>)
    ensures |urls| == |Filter(HasImage, inventory)|
    ensures forall i :: 0 <= i < |urls| ==> urls[i] == UploadUrl(Filter(HasImage, inventory)[i].image)
  {
    var withImage := Filter(HasImage, inventory);
    seq(|withImage|, i requires 0 <= i < |withImage| => UploadUrl(withImage[i].image))
  }

  /** The images come from exactly the items that have one, in order. */
  lemma AttireImagesSelects(inventory: seq<Item>)
    ensures Subseq(Filter(HasImage, inventory), inventory)
    ensures forall it :: it in Filter(HasImage, inventory) <==> it in inventory && it.image != ""
    ensures |AttireImages(inventory)| == Count(HasImage, inventory)
    ensures forall u :: u in AttireImages(inventory) <==>
              exists it :: it in inventory && it.image != "" && u == UploadUrl(it.image)
  {
    var withImage := Filter(HasImage, inventory);
    var urls := AttireImages(inventory);
    FilterIsSubseq(HasImage, inventory);
    forall it ensures it in withImage <==> it in inventory && HasImage(it) {
      FilterMembership(HasImage, inventory, it);
    }
    forall u ensures u in urls <==> exists it :: it in inventory && it.image != "" && u == UploadUrl(it.image) {
      if u in urls {
        var i :| 0 <= i < |urls| && urls[i] == u;
        assert withImage[i] in withImage;
      }
      if exists it :: it in inventory && it.image != "" && u == UploadUrl(it.image) {
        var it :| it in inventory && it.image != "" && u == UploadUrl(it.image);
        assert it in withImage;
        var j :| 0 <= j < |withImage| && withImage[j] == it;
        assert urls[j] == u;
      }
    }
  }
}

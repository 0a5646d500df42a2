/** `ImageWindow` of lib/GUI_objects/ImageWindow.py: two folders of stimulus
    images, and a list of the images already shown that both categories
    share, so that no image is shown twice until the list is restarted. */
module Images {
  import opened Builtins

  /** No name occurs twice (true of a directory listing). */
  predicate NoDuplicates(s: seq<string>) {
    forall i, j :: 0 <= i < j < |s| ==> s[i] != s[j]
  }

  /** `[image for image in images if image not in shown]`. */
  function Available(images: seq<string>, shown: seq<string>): (r: seq<string>)
    ensures |r| <= |images|
    ensures forall x :: x in r <==> x in images && x !in shown
  {
    if images == [] then []
    else (if images[0] in shown then [] else [images[0]]) + Available(images[1..], shown)
  }

  /** The filter keeps a duplicate-free list duplicate-free. */
  lemma {:induction false} AvailableNoDuplicates(images: seq<string>, shown: seq<string>)
    requires NoDuplicates(images)
    ensures NoDuplicates(Available(images, shown))
    decreases |images|
  {
    if images != [] {
      AvailableNoDuplicates(images[1..], shown);
      assert images[0] !in images[1..];
    }
  }

  /** With distinct names, showing one available image makes exactly one
      fewer available: a category of n unseen images can be shown n times
      before it runs out. */
  lemma {:induction false} AvailableShrinks(images: seq<string>, shown: seq<string>, x: string)
    requires NoDuplicates(images) && x in Available(images, shown)
    ensures |Available(images, shown + [x])| == |Available(images, shown)| - 1
    decreases |images|
  {
    var rest := images[1..];
    assert NoDuplicates(rest) by {
      forall i, j | 0 <= i < j < |rest| ensures rest[i] != rest[j] {
        assert rest[i] == images[i + 1] && rest[j] == images[j + 1];
      }
    }
    if images[0] == x {
      assert x !in rest;
      AvailableOfForeign(rest, shown, x);
    } else {
      assert images[0] in shown + [x] <==> images[0] in shown;
      AvailableShrinks(rest, shown, x);
    }
  }

  /** Marking a name that is not in the list as shown changes nothing. */
  lemma {:induction false} AvailableOfForeign(images: seq<string>, shown: seq<string>, x: string)
    requires x !in images
    ensures Available(images, shown + [x]) == Available(images, shown)
    decreases |images|
  {
    if images != [] {
      assert images[0] in shown + [x] <==> images[0] in shown;
      AvailableOfForeign(images[1..], shown, x);
    }
  }

  /** An image shown in either category is no longer available in the
      other: `shown_images` is shared. */
  lemma SharedShown(images: seq<string>, shown: seq<string>, x: string)
    ensures x !in Available(images, shown + [x])
  {
  }

  /** Appending a name the list does not hold keeps it duplicate-free. */
  lemma AppendFresh(s: seq<string>, x: string)
    requires NoDuplicates(s) && x !in s
    ensures NoDuplicates(s + [x])
  {
    var t := s + [x];
    forall i, j | 0 <= i < j < |t| ensures t[i] != t[j] {
      if j == |s| {
        assert t[i] == s[i];
      } else {
        assert t[i] == s[i] && t[j] == s[j];
      }
    }
  }

  class ImageWindow {
    /** `os.listdir` of the relaxing and disturbing folders. */
    const relaxingImages: seq<string>
    const disturbingImages: seq<string>
    var shownImages: seq<string>
    /** The image the label currently shows. */
    var displayed: Option<string>

    ghost predicate Valid()
      reads this
    {
      NoDuplicates(relaxingImages) && NoDuplicates(disturbingImages) && NoDuplicates(shownImages)
    }

    /** `__init__` with the two folder listings. */
    constructor (relaxing: seq<string>, disturbing: seq<string>)
      requires NoDuplicates(relaxing) && NoDuplicates(disturbing)
      ensures Valid()
      ensures relaxingImages == relaxing && disturbingImages == disturbing
      ensures shownImages == [] && displayed == None
    {
      relaxingImages := relaxing;
      disturbingImages := disturbing;
      shownImages := [];
      displayed := None;
    }

    /** The body both `show_*_image` methods share: `pick` is
        `randrange(0, len(list_of_available_images))`. */
    method ShowFrom(images: seq<string>, pick: nat) returns (outcome: Outcome)
      requires Valid()
      requires |Available(images, shownImages)| > 0 ==> pick < |Available(images, shownImages)|
      modifies this`shownImages, this`displayed
      ensures Valid()
      ensures old(Available(images, shownImages)) == [] ==>
        outcome == Raised(FileNotFoundError) && shownImages == old(shownImages) && displayed == old(displayed)
      ensures old(Available(images, shownImages)) != [] ==>
        (var image := old(Available(images, shownImages))[pick];
         outcome == Completed && image in images && image !in old(shownImages) &&
         shownImages == old(shownImages) + [image] && displayed == Some(image))
    {
      var available := Available(images, shownImages);
      if |available| < 1 {
        return Raised(FileNotFoundError);
      }
      var image := available[pick];
      assert image in available;
      AppendFresh(shownImages, image);
      displayed := Some(image);
      shownImages := shownImages + [image];
      outcome := Completed;
    }

    /** `show_relaxing_image`. */
    method ShowRelaxingImage(pick: nat) returns (outcome: Outcome)
      requires Valid()
      requires |Available(relaxingImages, shownImages)| > 0 ==> pick < |Available(relaxingImages, shownImages)|
      modifies this`shownImages, this`displayed
      ensures Valid()
      ensures old(Available(relaxingImages, shownImages)) == [] ==>
        outcome == Raised(FileNotFoundError) && shownImages == old(shownImages) && displayed == old(displayed)
      ensures old(Available(relaxingImages, shownImages)) != [] ==>
        (var image := old(Available(relaxingImages, shownImages))[pick];
         outcome == Completed && image in relaxingImages && image !in old(shownImages) &&
         shownImages == old(shownImages) + [image] && displayed == Some(image))
    {
      outcome := ShowFrom(relaxingImages, pick);
    }

    /** `show_disturbing_image`. */
    method ShowDisturbingImage(pick: nat) returns (outcome: Outcome)
      requires Valid()
      requires |Available(disturbingImages, shownImages)| > 0 ==> pick < |Available(disturbingImages, shownImages)|
      modifies this`shownImages, this`displayed
      ensures Valid()
      ensures old(Available(disturbingImages, shownImages)) == [] ==>
        outcome == Raised(FileNotFoundError) && shownImages == old(shownImages) && displayed == old(displayed)
      ensures old(Available(disturbingImages, shownImages)) != [] ==>
        (var image := old(Available(disturbingImages, shownImages))[pick];
         outcome == Completed && image in disturbingImages && image !in old(shownImages) &&
         shownImages == old(shownImages) + [image] && displayed == Some(image))
    {
      outcome := ShowFrom(disturbingImages, pick);
    }

    /** `restart_shown_images`: every image is available again. */
    method RestartShownImages()
      modifies this`shownImages
      ensures shownImages == []
      ensures Valid() <==> NoDuplicates(relaxingImages) && NoDuplicates(disturbingImages)
    {
      shownImages := [];
    }
  }

  /** Right after a restart every image of a category is available, in
      folder order. */
  lemma RestartedAvailable(images: seq<string>)
    ensures Available(images, []) == images
  {
    if images != [] {
      RestartedAvailable(images[1..]);
    }
  }
}

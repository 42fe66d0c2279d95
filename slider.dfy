/**
 * The home-page carousel editor (src/Components/UserDisplay/Slider.js).
 *
 * Every handler that talks to the server is split in two: the synchronous
 * part that runs on the click, and the part that runs when the reply
 * settles, which takes the reply as a parameter. The auto-advance timer is
 * a call of Next, the confirmation dialog a boolean, and the selected file
 * and its object URL are strings.
 */
module SliderPanel {

  import opened OrderRecord

  datatype Slide = Slide(id: string, image: string, linkTo: string)

  /** The add form: the chosen file (by name) and the chosen category link. */
  datatype Draft = Draft(image: Option<string>, linkTo: string)

  const EmptyDraft: Draft := Draft(None, "")
  const MissingFieldsAlert: string := "Please upload an image and select a link."
  const FailureAlert: string := "Something Went Wrong"

  /** A positive multiple of `n` is at least `n`. */
  lemma {:induction false} MultipleAtLeast(k: int, n: int)
    requires k >= 1 && n > 0
    ensures k * n >= n
    decreases k
  {
    if k > 1 {
      MultipleAtLeast(k - 1, n);
      assert k * n == (k - 1) * n + n;
    }
  }

  /** The remainder is determined by any decomposition `b == q * n + r` with `0 <= r < n`. */
  lemma ModUnique(b: int, n: int, q: int, r: int)
    requires n > 0 && 0 <= r < n && b == q * n + r
    ensures b % n == r
  {
    var q0, r0 := b / n, b % n;
    assert b == q0 * n + r0;
    var d := q - q0;
    assert d * n == q * n - q0 * n;
    assert d * n == r0 - r;
    if d >= 1 {
      MultipleAtLeast(d, n);
    } else if d <= -1 {
      MultipleAtLeast(-d, n);
    }
  }

  /** Taking one `n` off a dividend of at least `n` keeps the remainder. */
  lemma ModSubN(b: int, n: int)
    requires n > 0 && b >= n
    ensures (b - n) % n == b % n
  {
    var q, r := (b - n) / n, (b - n) % n;
    assert b - n == q * n + r;
    assert (q + 1) * n == q * n + n;
    ModUnique(b, n, q + 1, r);
  }

  /**
   * JavaScript's remainder, which truncates toward zero: the remainder of
   * the magnitude, carrying the sign of `a`.
   */
  function JsRem(a: int, n: int): (r: int)
    requires n > 0
    ensures a >= 0 ==> 0 <= r < n && r == a % n
    ensures a < 0 ==> -n < r <= 0 && r == -((-a) % n)
    ensures 0 <= a < n ==> r == a
    ensures a == n ==> r == 0
    decreases if a >= 0 then a else -a
  {
    if 0 <= a < n then
      ModUnique(a, n, 0, a);
      a
    else if a >= n then
      ModSubN(a, n);
      JsRem(a - n, n)
    else if -n < a then
      ModUnique(-a, n, 0, -a);
      a
    else
      ModSubN(-a, n);
      JsRem(a + n, n)
  }

  /** The next slide: one past `i`, taken modulo `n` with JavaScript's remainder, wrapping from the last to the first. */
  function NextIndex(i: int, n: int): (r: int)
    requires n > 0
    ensures -1 <= i ==> 0 <= r < n && r == (i + 1) % n
    ensures 0 <= i < n - 1 ==> r == i + 1
    ensures i == n - 1 ==> r == 0
  {
    JsRem(i + 1, n)
  }

  /** The previous slide, wrapping from the first to the last. */
  function PrevIndex(i: int, n: int): (r: int)
    ensures 0 <= i < n ==> 0 <= r < n
    ensures 0 < i ==> r == i - 1
    ensures i == 0 ==> r == n - 1
  {
    if i == 0 then n - 1 else i - 1
  }

  /** Prev undoes Next and Next undoes Prev on every index of a non-empty carousel. */
  lemma PrevNextInverse(i: int, n: int)
    requires 0 <= i < n
    ensures PrevIndex(NextIndex(i, n), n) == i
    ensures NextIndex(PrevIndex(i, n), n) == i
  {
  }

  /** The slides whose id differs from `id`, in order. */
  function WithoutId(slides: seq<Slide>, id: string): (r: seq<Slide>)
    ensures |r| <= |slides|
    ensures forall k :: 0 <= k < |r| ==> r[k].id != id
    ensures forall s :: s in r <==> s in slides && s.id != id
  {
    if slides == [] then []
    else if slides[0].id != id then [slides[0]] + WithoutId(slides[1..], id)
    else WithoutId(slides[1..], id)
  }

  /** The filter keeps the survivors in their order: it distributes over concatenation. */
  lemma {:induction false} WithoutIdAppend(a: seq<Slide>, b: seq<Slide>, id: string)
    ensures WithoutId(a + b, id) == WithoutId(a, id) + WithoutId(b, id)
  {
    if a == [] {
      assert a + b == b;
    } else {
      assert (a + b)[1..] == a[1..] + b;
      WithoutIdAppend(a[1..], b, id);
    }
  }

  /** A list without the id is left exactly as it was. */
  lemma {:induction false} WithoutAbsentId(slides: seq<Slide>, id: string)
    requires forall k :: 0 <= k < |slides| ==> slides[k].id != id
    ensures WithoutId(slides, id) == slides
  {
    if slides != [] {
      WithoutAbsentId(slides[1..], id);
    }
  }

  /** The reply to an add request. */
  datatype AddReply = Added(slides: seq<Slide>) | AddFailed

  /** The reply to a delete request. */
  datatype DeleteReply = Replied(status: bool, message: string) | DeleteFailed

  class Slider {
    var activeIndex: int
    var slides: seq<Slide>
    var showForm: bool
    var newSlide: Draft
    var previewImage: Option<string>
    var isAdding: bool
    var isDeleting: bool
    var deletingId: Option<string>
    var lastAlert: Option<string>     // the most recent `alert`

    /** The preview exists exactly when a file is chosen; a delete is in flight exactly when its id is recorded. */
    ghost predicate Valid()
      reads this
    {
      (previewImage.Some? <==> newSlide.image.Some?) && (isDeleting <==> deletingId.Some?)
    }

    constructor ()
      ensures Valid()
      ensures activeIndex == 0 && slides == [] && !showForm && newSlide == EmptyDraft
      ensures previewImage == None && !isAdding && !isDeleting && deletingId == None && lastAlert == None
    {
      activeIndex := 0;
      slides := [];
      showForm := false;
      newSlide := EmptyDraft;
      previewImage := None;
      isAdding := false;
      isDeleting := false;
      deletingId := None;
      lastAlert := None;
    }

    /** The initial reply of the slider list request; an absent list is empty. */
    method SlidesLoaded(data: seq<Slide>)
      modifies this`slides
      ensures slides == data
    {
      slides := data;
    }

    /** The right arrow, and each tick of the auto-advance timer (which only runs while there are slides). */
    method Next()
      requires |slides| > 0
      modifies this`activeIndex
      ensures activeIndex == NextIndex(old(activeIndex), |slides|)
    {
      activeIndex := JsRem(activeIndex + 1, |slides|);
    }

    /** The left arrow; on an empty list it yields -1. */
    method Prev()
      modifies this`activeIndex
      ensures activeIndex == PrevIndex(old(activeIndex), |slides|)
    {
      activeIndex := if activeIndex == 0 then |slides| - 1 else activeIndex - 1;
    }

    /** A dot under the carousel; there is one dot per slide. */
    method SelectDot(i: int)
      requires 0 <= i < |slides|
      modifies this`activeIndex
      ensures activeIndex == i
    {
      activeIndex := i;
    }

    /** "Add New Slide" / "Close Form". */
    method ToggleForm()
      modifies this`showForm
      ensures showForm == !old(showForm)
    {
      showForm := !showForm;
    }

    /** The file input: a chosen file becomes the draft's image and gets a preview URL. */
    method HandleFileChange(file: Option<string>, objectUrl: string)
      requires Valid()
      modifies this`newSlide, this`previewImage
      ensures Valid()
      ensures file.Some? ==> newSlide == old(newSlide).(image := file) && previewImage == Some(objectUrl)
      ensures file.None? ==> newSlide == old(newSlide) && previewImage == old(previewImage)
    {
      if file.Some? {
        newSlide := newSlide.(image := file);
        previewImage := Some(objectUrl);
      }
    }

    /** The category select (the only input bound to this handler, named "linkTo"). */
    method HandleInputChange(value: string)
      requires Valid()
      modifies this`newSlide
      ensures Valid()
      ensures newSlide == old(newSlide).(linkTo := value)
    {
      newSlide := newSlide.(linkTo := value);
    }

    /**
     * "Add Slide": with both an image and a link the request is sent and
     * `isAdding` is raised; otherwise only the alert is shown.
     */
    method HandleAddSlide() returns (sent: bool)
      requires Valid()
      modifies this`isAdding, this`lastAlert
      ensures Valid()
      ensures sent <==> old(newSlide).image.Some? && old(newSlide).linkTo != ""
      ensures sent ==> isAdding && lastAlert == old(lastAlert)
      ensures !sent ==> isAdding == old(isAdding) && lastAlert == Some(MissingFieldsAlert)
    {
      sent := newSlide.image.Some? && newSlide.linkTo != "";
      if sent {
        isAdding := true;
      } else {
        lastAlert := Some(MissingFieldsAlert);
      }
    }

    /**
     * The add request settled. On success the server's list replaces the
     * slides and the form is reset and hidden; on failure an alert is shown.
     * Either way `isAdding` drops.
     */
    method AddSettled(reply: AddReply)
      requires Valid()
      modifies this`slides, this`newSlide, this`previewImage, this`showForm, this`isAdding, this`lastAlert
      ensures Valid()
      ensures !isAdding
      ensures reply.Added? ==> slides == reply.slides && newSlide == EmptyDraft && previewImage == None && !showForm
      ensures reply.Added? ==> lastAlert == old(lastAlert)
      ensures reply.AddFailed? ==> slides == old(slides) && newSlide == old(newSlide) && previewImage == old(previewImage)
      ensures reply.AddFailed? ==> showForm == old(showForm) && lastAlert == Some(FailureAlert)
    {
      match reply {
        case Added(list) =>
          slides := list;
          newSlide := EmptyDraft;
          previewImage := None;
          showForm := false;
        case AddFailed =>
          lastAlert := Some(FailureAlert);
      }
      isAdding := false;
    }

    /**
     * The delete request goes out: the button of slide `id` is marked busy.
     * The handler's closure keeps the slide list as it is now; the reply
     * filters that list, which is returned as `captured`.
     */
    method HandleDeleteSlide(id: string) returns (captured: seq<Slide>)
      requires Valid()
      modifies this`isDeleting, this`deletingId
      ensures Valid()
      ensures isDeleting && deletingId == Some(id)
      ensures captured == slides
    {
      isDeleting := true;
      deletingId := Some(id);
      captured := slides;
    }

    /** The delete button: the request goes out only when the user confirms. */
    method ConfirmDeleteSlide(id: string, confirmed: bool) returns (captured: Option<seq<Slide>>)
      requires Valid()
      modifies this`isDeleting, this`deletingId
      ensures Valid()
      ensures confirmed ==> isDeleting && deletingId == Some(id) && captured == Some(slides)
      ensures !confirmed ==> isDeleting == old(isDeleting) && deletingId == old(deletingId) && captured == None
    {
      if confirmed {
        var c := HandleDeleteSlide(id);
        captured := Some(c);
      } else {
        captured := None;
      }
    }

    /**
     * The delete request settled. A reply with a true status removes exactly
     * the slides with that id from the captured list; any other outcome
     * leaves the slides alone. Either way the busy marks are cleared. The
     * active index is not adjusted.
     */
    method DeleteSettled(id: string, captured: seq<Slide>, reply: DeleteReply)
      requires Valid()
      modifies this`slides, this`isDeleting, this`deletingId, this`lastAlert
      ensures Valid()
      ensures !isDeleting && deletingId == None
      ensures reply.Replied? && reply.status ==> slides == WithoutId(captured, id)
      ensures !(reply.Replied? && reply.status) ==> slides == old(slides)
      ensures lastAlert == Some(if reply.Replied? then reply.message else FailureAlert)
    {
      match reply {
        case Replied(status, message) =>
          lastAlert := Some(message);
          if status {
            slides := WithoutId(captured, id);
          }
        case DeleteFailed =>
          lastAlert := Some(FailureAlert);
      }
      isDeleting := false;
      deletingId := None;
    }

    /** The delete button of a slide is disabled while a delete of that same id is in flight. */
    function DeleteDisabled(slideId: string): (disabled: bool)
      reads this
      requires Valid()
      ensures disabled <==> deletingId == Some(slideId)
      ensures !isDeleting ==> !disabled
    {
      isDeleting && deletingId == Some(slideId)
    }
  }

  /** Deleting the slide that is on screen when it is the last one leaves the index past the end. */
  method DeleteCanLeaveIndexOutOfRange() returns (index: int, count: nat)
    ensures index == count
  {
    var s := new Slider();
    s.SlidesLoaded([Slide("a", "a.png", "/x"), Slide("b", "b.png", "/y")]);
    s.Next();
    var captured := s.HandleDeleteSlide("b");
    s.DeleteSettled("b", captured, Replied(true, "deleted"));
    index, count := s.activeIndex, |s.slides|;
  }
}

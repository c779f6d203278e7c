// The materialization panel (components/Materializer.tsx): the drag-to-rotate
// viewer's index arithmetic, the cyclic processing-stage counter, the choice
// of rotation views, and the entry list of the downloadable archive.

module Materializer {
  import opened Types

  // ---------------------------------------------------------------------------
  // Cyclic stepping over n positions

  /** One position forward, wrapping from the last position to the first. */
  function Next(i: nat, n: nat): (r: nat)
    requires i < n
    ensures r < n
  {
    (i + 1) % n
  }

  /** One position back, wrapping from the first position to the last. */
  function Prev(i: nat, n: nat): (r: nat)
    requires i < n
    ensures r < n
  {
    (i - 1 + n) % n
  }

  // ModOnce and MulBounds are the modular arithmetic PrevStep needs: a
  // value in [n, 2n) reduced modulo n loses exactly one n.

  lemma ModOnce(x: int, n: int)
    requires 0 < n <= x < 2 * n
    ensures x % n == x - n
  {
    MulBounds(x / n, n);
  }

  lemma MulBounds(q: int, n: int)
    requires 0 < n
    ensures q <= 0 ==> q * n <= 0
    ensures q >= 2 ==> q * n >= 2 * n
  {
  }

  /** Forward moves to the following position, and from the last one to 0. */
  lemma NextStep(i: nat, n: nat)
    requires i < n
    ensures Next(i, n) == if i + 1 < n then i + 1 else 0
  {
  }

  /** Back moves to the preceding position, and from 0 to the last one. */
  lemma PrevStep(i: nat, n: nat)
    requires i < n
    ensures Prev(i, n) == if i == 0 then n - 1 else i - 1
  {
    if i > 0 {
      ModOnce(i - 1 + n, n);
    }
  }

  /** Stepping back undoes stepping forward, and the other way round. */
  lemma PrevUndoesNext(i: nat, n: nat)
    requires i < n
    ensures Prev(Next(i, n), n) == i
    ensures Next(Prev(i, n), n) == i
  {
    NextStep(i, n);
    PrevStep(i, n);
    NextStep(Prev(i, n), n);
    PrevStep(Next(i, n), n);
  }

  /** k steps forward from i. */
  function Advance(i: nat, n: nat, k: nat): (r: nat)
    requires i < n
    ensures r < n
  {
    if k == 0 then i else Next(Advance(i, n, k - 1), n)
  }

  /** Within one turn, k steps forward add k, wrapping past the end once. */
  lemma {:induction false} AdvanceWithinTurn(i: nat, n: nat, k: nat)
    requires i < n && k <= n
    ensures Advance(i, n, k) == if i + k < n then i + k else i + k - n
  {
    if k > 0 {
      AdvanceWithinTurn(i, n, k - 1);
      NextStep(Advance(i, n, k - 1), n);
    }
  }

  /** n steps forward return to the start. */
  lemma FullTurn(i: nat, n: nat)
    requires i < n
    ensures Advance(i, n, n) == i
  {
    AdvanceWithinTurn(i, n, n);
  }

  // ---------------------------------------------------------------------------
  // The interactive viewer

  /** One image the viewer can show. */
  datatype View = View(title: string, imageUrl: string)

  /** How far, in pixels, a drag must travel to change the image. */
  const DragThreshold: int := 50

  /** `Array.prototype.findIndex` on titles: the first matching position, or -1. */
  function FindIndex(views: seq<View>, title: string): (r: int)
    ensures -1 <= r < |views|
    ensures r >= 0 ==> views[r].title == title
    ensures r >= 0 ==> forall j :: 0 <= j < r ==> views[j].title != title
    ensures r == -1 <==> forall j :: 0 <= j < |views| ==> views[j].title != title
  {
    if views == [] then -1
    else if views[0].title == title then 0
    else
      var r := FindIndex(views[1..], title);
      if r == -1 then -1 else r + 1
  }

  /** `defaultIndex`: the first view titled `defaultView`, else the first view. */
  function DefaultIndex(views: seq<View>, defaultView: string): (r: nat)
    ensures |views| > 0 ==> r < |views|
    ensures (exists j :: 0 <= j < |views| && views[j].title == defaultView) ==>
              views[r].title == defaultView && forall j :: 0 <= j < r ==> views[j].title != defaultView
    ensures (forall j :: 0 <= j < |views| ==> views[j].title != defaultView) ==> r == 0
  {
    var idx := FindIndex(views, defaultView);
    if idx > -1 then idx else 0
  }

  /**
   * InteractiveViewer's state.  The mouse handlers are attached only when
   * there is at least one view, which is why MouseMove may assume it.
   */
  class InteractiveViewer {
    const views: seq<View>
    var currentIndex: nat
    var isDragging: bool
    var startX: int

    ghost predicate Valid()
      reads this
    {
      currentIndex < |views| || (|views| == 0 && currentIndex == 0)
    }

    constructor (views: seq<View>, defaultView: string)
      ensures Valid()
      ensures this.views == views
      ensures currentIndex == DefaultIndex(views, defaultView)
      ensures !isDragging && startX == 0
    {
      this.views := views;
      currentIndex := DefaultIndex(views, defaultView);
      isDragging := false;
      startX := 0;
    }

    /** handleMouseDown: start dragging from the cursor's x. */
    method MouseDown(clientX: int)
      requires Valid()
      modifies this
      ensures Valid()
      ensures isDragging && startX == clientX && currentIndex == old(currentIndex)
    {
      isDragging := true;
      startX := clientX;
    }

    /** handleMouseUp: stop dragging. */
    method MouseUp()
      requires Valid()
      modifies this
      ensures Valid()
      ensures !isDragging && startX == old(startX) && currentIndex == old(currentIndex)
    {
      isDragging := false;
    }

    /** handleMouseLeave: stop dragging. */
    method MouseLeave()
      requires Valid()
      modifies this
      ensures Valid()
      ensures !isDragging && startX == old(startX) && currentIndex == old(currentIndex)
    {
      isDragging := false;
    }

    /**
     * handleMouseMove: while dragging, a move more than the threshold to the
     * right shows the next view, more than the threshold to the left the
     * previous one, and either restarts the drag at the cursor's x.
     */
    method MouseMove(clientX: int)
      requires Valid() && |views| > 0
      modifies this
      ensures Valid() && isDragging == old(isDragging)
      ensures !old(isDragging) ==> currentIndex == old(currentIndex) && startX == old(startX)
      ensures old(isDragging) && clientX - old(startX) > DragThreshold ==>
                currentIndex == Next(old(currentIndex), |views|) && startX == clientX
      ensures old(isDragging) && clientX - old(startX) < -DragThreshold ==>
                currentIndex == Prev(old(currentIndex), |views|) && startX == clientX
      ensures old(isDragging) && -DragThreshold <= clientX - old(startX) <= DragThreshold ==>
                currentIndex == old(currentIndex) && startX == old(startX)
    {
      if !isDragging {
        return;
      }
      var deltaX := clientX - startX;
      if deltaX > DragThreshold {
        currentIndex := Next(currentIndex, |views|);
        startX := clientX;
      } else if deltaX < -DragThreshold {
        currentIndex := Prev(currentIndex, |views|);
        startX := clientX;
      }
    }

    /** The view on screen. */
    function CurrentView(): (v: View)
      reads this
      requires Valid() && |views| > 0
      ensures v in views
    {
      views[currentIndex]
    }
  }

  // ---------------------------------------------------------------------------
  // The processing-stage counter

  const ProcessingStages: seq<string> := [
    "// Analyzing reference images...",
    "// Calibrating camera positions...",
    "// Building dense point cloud...",
    "// Generating 3D mesh from points...",
    "// Creating texture map...",
    "// Finalizing model..."
  ]

  /**
   * Materializer's `stage` and the effect that drives it: while the status
   * is processing an interval advances the stage cyclically; any other
   * status resets it to 0.
   */
  class StageCounter {
    var status: MaterializationStatus
    var stage: nat

    ghost predicate Valid()
      reads this
    {
      stage < |ProcessingStages|
    }

    /** Mounting: the state starts at 0 and the effect runs once. */
    constructor (status: MaterializationStatus)
      ensures Valid() && this.status == status && stage == 0
    {
      this.status := status;
      stage := 0;
    }

    /**
     * The effect re-runs only when the status changes: entering processing
     * starts the interval and keeps the stage, any other status resets it.
     */
    method StatusChanged(newStatus: MaterializationStatus)
      requires Valid()
      modifies this
      ensures Valid() && status == newStatus
      ensures newStatus == old(status) ==> stage == old(stage)
      ensures newStatus != old(status) && newStatus != Processing ==> stage == 0
      ensures newStatus != old(status) && newStatus == Processing ==> stage == old(stage)
    {
      if newStatus != status {
        status := newStatus;
        if newStatus != Processing {
          stage := 0;
        }
      }
    }

    /** One interval tick; the interval exists only while processing. */
    method Tick()
      requires Valid() && status == Processing
      modifies this
      ensures Valid() && status == old(status)
      ensures stage == Next(old(stage), |ProcessingStages|)
    {
      stage := Next(stage, |ProcessingStages|);
    }

    /** The line shown under the spinner. */
    function StageLabel(): (line: string)
      reads this
      requires Valid()
      ensures line in ProcessingStages
    {
      ProcessingStages[stage]
    }
  }

  // ---------------------------------------------------------------------------
  // Rotation views

  /** The ids shown by the viewer, in rotation order: front, 3/4, opposite, back. */
  const RotationOrder: seq<int> := [2, 4, 1, 3]

  /** The title the viewer opens on. */
  const DefaultViewTitle: string := "3/4 View"

  /** `Array.prototype.find` by id. */
  function FindById(steps: seq<GenerationStep>, id: int): (r: Option<GenerationStep>)
    ensures r.None? <==> forall i :: 0 <= i < |steps| ==> steps[i].id != id
    ensures r.Some? ==> r.value in steps && r.value.id == id
  {
    if steps == [] then None
    else if steps[0].id == id then Some(steps[0])
    else FindById(steps[1..], id)
  }

  /** With distinct ids, finding the id of step k finds step k. */
  lemma {:induction false} FindByIdUnique(steps: seq<GenerationStep>, k: nat)
    requires DistinctIds(steps) && k < |steps|
    ensures FindById(steps, steps[k].id) == Some(steps[k])
  {
    if k > 0 {
      assert steps[0].id != steps[k].id;
      assert steps[1..][k - 1] == steps[k];
      FindByIdUnique(steps[1..], k - 1);
    }
  }

  /** `find` returns the first step carrying the id, whatever comes after it. */
  lemma {:induction false} FindByIdFirst(steps: seq<GenerationStep>, id: int, k: nat)
    requires k < |steps| && steps[k].id == id
    requires forall j :: 0 <= j < k ==> steps[j].id != id
    ensures FindById(steps, id) == Some(steps[k])
  {
    if k > 0 {
      assert steps[1..][k - 1] == steps[k];
      assert forall j :: 0 <= j < k - 1 ==> steps[1..][j] == steps[j + 1];
      FindByIdFirst(steps[1..], id, k - 1);
    }
  }

  /** A found step becomes a view when its imageUrl is truthy: present and non-empty. */
  function AsView(found: Option<GenerationStep>): Option<View>
  {
    if found.Some? && found.value.imageUrl.Some? && found.value.imageUrl.value != "" then
      Some(View(found.value.title, found.value.imageUrl.value))
    else None
  }

  /** The views of the steps with the given ids, in the order of the ids, dropping those not shown. */
  function ViewsFor(steps: seq<GenerationStep>, ids: seq<int>): (r: seq<View>)
    ensures |r| <= |ids|
  {
    if ids == [] then []
    else
      var head := AsView(FindById(steps, ids[0]));
      if head.Some? then [head.value] + ViewsFor(steps, ids[1..]) else ViewsFor(steps, ids[1..])
  }

  /** Every view listed is the view of a step whose id is one of the ids. */
  lemma {:induction false} ViewsForSound(steps: seq<GenerationStep>, ids: seq<int>, v: View)
    requires v in ViewsFor(steps, ids)
    ensures exists id :: id in ids && AsView(FindById(steps, id)) == Some(v)
  {
    var head := AsView(FindById(steps, ids[0]));
    if head != Some(v) {
      ViewsForSound(steps, ids[1..], v);
      var id :| id in ids[1..] && AsView(FindById(steps, id)) == Some(v);
      assert id in ids;
    }
  }

  /** When every id has a view, nothing is dropped and the order of the ids is kept. */
  lemma {:induction false} ViewsForComplete(steps: seq<GenerationStep>, ids: seq<int>)
    requires forall i :: 0 <= i < |ids| ==> AsView(FindById(steps, ids[i])).Some?
    ensures |ViewsFor(steps, ids)| == |ids|
    ensures forall i :: 0 <= i < |ids| ==> ViewsFor(steps, ids)[i] == AsView(FindById(steps, ids[i])).value
  {
    if ids != [] {
      assert forall i :: 0 <= i < |ids[1..]| ==> ids[1..][i] == ids[i + 1];
      ViewsForComplete(steps, ids[1..]);
    }
  }

  /** When no id has a view, the list is empty. */
  lemma {:induction false} ViewsForNone(steps: seq<GenerationStep>, ids: seq<int>)
    requires forall i :: 0 <= i < |ids| ==> AsView(FindById(steps, ids[i])).None?
    ensures ViewsFor(steps, ids) == []
  {
    if ids != [] {
      assert forall i :: 0 <= i < |ids[1..]| ==> ids[1..][i] == ids[i + 1];
      ViewsForNone(steps, ids[1..]);
    }
  }

  /** The view of the step with this id as a list: empty when no step with the id shows an image. */
  function ShownView(steps: seq<GenerationStep>, id: int): (r: seq<View>)
    ensures |r| <= 1
    ensures |r| == 1 <==> exists i :: 0 <= i < |steps| && steps[i].id == id && AsView(FindById(steps, id)).Some?
  {
    var found := AsView(FindById(steps, id));
    if found.Some? then [found.value] else []
  }

  /** The list for one id is that id's view, or nothing. */
  lemma ViewsForSingle(steps: seq<GenerationStep>, id: int)
    ensures ViewsFor(steps, [id]) == ShownView(steps, id)
  {
    assert [id][1..] == [];
  }

  /** Listing the views of two runs of ids lists each run in turn: ids are handled one at a time. */
  lemma {:induction false} ViewsForAppend(steps: seq<GenerationStep>, a: seq<int>, b: seq<int>)
    ensures ViewsFor(steps, a + b) == ViewsFor(steps, a) + ViewsFor(steps, b)
  {
    if a != [] {
      assert (a + b)[0] == a[0];
      assert (a + b)[1..] == a[1..] + b;
      ViewsForAppend(steps, a[1..], b);
    } else {
      assert a + b == b;
    }
  }

  /** `rotationViews`: at most four views, each a shown step with one of the rotation ids. */
  function RotationViews(steps: seq<GenerationStep>): (r: seq<View>)
    ensures |r| <= 4
  {
    ViewsFor(steps, RotationOrder)
  }

  /**
   * The viewer lists the view of step 2, then 4, then 1, then 3, each only
   * when that step shows an image: a step without one is skipped and the
   * others keep their order.
   */
  lemma RotationViewsByIds(steps: seq<GenerationStep>)
    ensures RotationViews(steps) ==
              ShownView(steps, 2) + ShownView(steps, 4) + ShownView(steps, 1) + ShownView(steps, 3)
  {
    assert RotationOrder == [2] + ([4] + ([1] + [3]));
    ViewsForAppend(steps, [1], [3]);
    ViewsForAppend(steps, [4], [1] + [3]);
    ViewsForAppend(steps, [2], [4] + ([1] + [3]));
    ViewsForSingle(steps, 2);
    ViewsForSingle(steps, 4);
    ViewsForSingle(steps, 1);
    ViewsForSingle(steps, 3);
  }

  /**
   * With distinct ids and the steps with ids 1..4 first, when every one
   * but the 3/4 view (id 4) shows an image, the viewer shows the other
   * three, in the order 2, 1, 3.
   */
  lemma RotationSkipsUnshown(steps: seq<GenerationStep>)
    requires DistinctIds(steps) && |steps| >= 4
    requires forall k :: 0 <= k < 4 ==> steps[k].id == k + 1
    requires forall k :: 0 <= k < 3 ==> steps[k].imageUrl.Some? && steps[k].imageUrl.value != ""
    requires steps[3].imageUrl.None?
    ensures RotationViews(steps) == [
              View(steps[1].title, steps[1].imageUrl.value), View(steps[0].title, steps[0].imageUrl.value),
              View(steps[2].title, steps[2].imageUrl.value)]
  {
    RotationViewsByIds(steps);
    FindByIdUnique(steps, 0);
    FindByIdUnique(steps, 1);
    FindByIdUnique(steps, 2);
    FindByIdUnique(steps, 3);
  }

  /**
   * With distinct ids and the steps with ids 1..4 first and showing an
   * image, the viewer shows exactly those four, in the order 2, 4, 1, 3.
   */
  lemma RotationOfShownSteps(steps: seq<GenerationStep>)
    requires DistinctIds(steps) && |steps| >= 4
    requires forall k :: 0 <= k < 4 ==>
               steps[k].id == k + 1 && steps[k].imageUrl.Some? && steps[k].imageUrl.value != ""
    ensures RotationViews(steps) == [
              View(steps[1].title, steps[1].imageUrl.value), View(steps[3].title, steps[3].imageUrl.value),
              View(steps[0].title, steps[0].imageUrl.value), View(steps[2].title, steps[2].imageUrl.value)]
  {
    RotationViewsByIds(steps);
    FindByIdUnique(steps, 0);
    FindByIdUnique(steps, 1);
    FindByIdUnique(steps, 2);
    FindByIdUnique(steps, 3);
  }

  // ---------------------------------------------------------------------------
  // Archive file names

  function ToLowerAscii(c: char): char
  {
    if 'A' <= c <= 'Z' then (c as int + 32) as char else c
  }

  predicate IsLowerAlnum(c: char)
  {
    'a' <= c <= 'z' || '0' <= c <= '9'
  }

  /** One character of the stem: its ASCII lower case when that is a letter or digit, else '_'. */
  function SanitizeChar(c: char): char
  {
    var lower := ToLowerAscii(c);
    if IsLowerAlnum(lower) then lower else '_'
  }

  /** `title.toLowerCase().replace(/[^a-z0-9]/g, '_')`, for titles in ASCII. */
  function FilenameStem(title: string): (stem: string)
    ensures |stem| == |title|
  {
    seq(|title|, i requires 0 <= i < |title| => SanitizeChar(title[i]))
  }

  /**
   * The stem keeps the title's letters and digits, lower-cased, and puts
   * '_' for every other character, so it holds nothing but [a-z0-9_].
   */
  lemma StemChars(title: string)
    ensures forall i :: 0 <= i < |title| ==> IsLowerAlnum(FilenameStem(title)[i]) || FilenameStem(title)[i] == '_'
    ensures forall i :: 0 <= i < |title| && IsLowerAlnum(ToLowerAscii(title[i])) ==>
              FilenameStem(title)[i] == ToLowerAscii(title[i])
    ensures forall i :: 0 <= i < |title| && !IsLowerAlnum(ToLowerAscii(title[i])) ==> FilenameStem(title)[i] == '_'
  {
    var stem := FilenameStem(title);
    forall i | 0 <= i < |title| ensures IsLowerAlnum(stem[i]) || stem[i] == '_' {
      assert stem[i] == SanitizeChar(title[i]);
    }
  }

  /** A stem known character by character names the file stem + ".png". */
  lemma FilenameByChars(title: string, stem: string)
    requires |title| == |stem|
    requires forall k :: 0 <= k < |title| ==> SanitizeChar(title[k]) == stem[k]
    ensures Filename(title) == stem + ".png"
  {
    assert FilenameStem(title) == stem;
  }

  /** Sanitising an already sanitised stem changes nothing. */
  lemma StemIdempotent(title: string)
    ensures FilenameStem(FilenameStem(title)) == FilenameStem(title)
  {
    var stem := FilenameStem(title);
    StemChars(title);
    forall i | 0 <= i < |stem|
      ensures FilenameStem(stem)[i] == stem[i]
    {
      assert ToLowerAscii(stem[i]) == stem[i];
    }
  }

  /** The archive file name of an image. */
  function Filename(title: string): string
  {
    FilenameStem(title) + ".png"
  }

  // ---------------------------------------------------------------------------
  // Data URL payloads

  predicate StartsWith(s: string, prefix: string)
  {
    |prefix| <= |s| && s[..|prefix|] == prefix
  }

  /** `String.prototype.indexOf` for one character: its first position, or -1. */
  function IndexOf(s: string, c: char): (r: int)
    ensures -1 <= r < |s|
    ensures r >= 0 ==> s[r] == c && c !in s[..r]
    ensures r == -1 <==> c !in s
  {
    if s == [] then -1
    else if s[0] == c then 0
    else
      var r := IndexOf(s[1..], c);
      assert r >= 0 ==> s[..r + 1] == [s[0]] + s[1..][..r];
      if r == -1 then -1 else r + 1
  }

  /**
   * `url.substring(url.indexOf(',') + 1)`: the text after the first comma;
   * with no comma, indexOf gives -1 and the whole string is kept.
   */
  function Base64Payload(url: string): (r: string)
    ensures ',' !in url ==> r == url
    ensures ',' in url ==> |r| < |url| && url[|url| - |r| - 1] == ',' && url[|url| - |r|..] == r
    ensures ',' in url ==> ',' !in url[..|url| - |r| - 1]
  {
    url[IndexOf(url, ',') + 1..]
  }

  /** A header without a comma, a comma and a payload: the payload is recovered whole. */
  lemma PayloadAfterHeader(header: string, payload: string)
    requires ',' !in header
    ensures Base64Payload(header + "," + payload) == payload
  {
    var url := header + "," + payload;
    assert url[..|header|] == header;
    assert url[|header|] == ',';
    assert IndexOf(url, ',') == |header|;
    assert url[|header| + 1..] == payload;
  }

  // ---------------------------------------------------------------------------
  // The archive's entry list

  /** One file of the archive: fetched from a blob URL, or decoded from base64 text. */
  datatype ArchiveEntry = FetchedEntry(filename: string, url: string) | Base64Entry(filename: string, data: string)

  /** The record put first in the list for the uploaded image. */
  function OriginalView(url: string): GenerationStep
  {
    GenerationStep(0, "Original View", "", Completed, Some(url), None)
  }

  /** `allImages`: the steps, preceded by the uploaded image when its URL is truthy. */
  function AllImages(steps: seq<GenerationStep>, originalImageUrl: Option<string>): (images: seq<GenerationStep>)
    ensures |images| == |steps| + (if originalImageUrl.Some? && originalImageUrl.value != "" then 1 else 0)
    ensures images[|images| - |steps|..] == steps
    ensures originalImageUrl.Some? && originalImageUrl.value != "" ==>
              images[0] == OriginalView(originalImageUrl.value) && images[0].title == "Original View"
  {
    if originalImageUrl.Some? && originalImageUrl.value != "" then [OriginalView(originalImageUrl.value)] + steps
    else steps
  }

  /**
   * The entry one image contributes: none without a truthy URL, a fetched
   * file for a blob URL, a base64 file for a data URL, and none otherwise.
   */
  function EntryFor(image: GenerationStep): seq<ArchiveEntry>
  {
    if image.imageUrl.None? || image.imageUrl.value == "" then []
    else
      var url := image.imageUrl.value;
      if StartsWith(url, "blob:") then [FetchedEntry(Filename(image.title), url)]
      else if StartsWith(url, "data:") then [Base64Entry(Filename(image.title), Base64Payload(url))]
      else []
  }

  /** The entries of a list of images, in list order. */
  function ArchiveEntries(images: seq<GenerationStep>): (entries: seq<ArchiveEntry>)
    ensures |entries| <= |images|
  {
    if images == [] then []
    else ArchiveEntries(images[..|images| - 1]) + EntryFor(images[|images| - 1])
  }

  /** The entries of two lists are the entries of each, concatenated. */
  lemma {:induction false} ArchiveEntriesAppend(front: seq<GenerationStep>, back: seq<GenerationStep>)
    ensures ArchiveEntries(front + back) == ArchiveEntries(front) + ArchiveEntries(back)
  {
    if back != [] {
      var last := back[|back| - 1];
      assert (front + back)[..|front + back| - 1] == front + back[..|back| - 1];
      ArchiveEntriesAppend(front, back[..|back| - 1]);
    } else {
      assert front + back == front;
    }
  }

  /**
   * An image without a truthy URL, or whose URL is neither a blob nor a
   * data URL, is skipped: the list is as if the image were not there.
   */
  lemma SkippedImage(front: seq<GenerationStep>, image: GenerationStep, back: seq<GenerationStep>)
    requires image.imageUrl.None? || image.imageUrl.value == "" ||
             (!StartsWith(image.imageUrl.value, "blob:") && !StartsWith(image.imageUrl.value, "data:"))
    ensures ArchiveEntries(front + [image] + back) == ArchiveEntries(front + back)
  {
    assert ArchiveEntries([image]) == [] by {
      assert [image][..0] == [];
      assert EntryFor(image) == [];
    }
    ArchiveEntriesAppend(front, [image]);
    assert ArchiveEntries(front + [image]) == ArchiveEntries(front);
    ArchiveEntriesAppend(front + [image], back);
    ArchiveEntriesAppend(front, back);
  }

  /** The uploaded image is archived as original_view.png. */
  lemma OriginalFilename()
    ensures Filename("Original View") == "original_view.png"
  {
    FilenameByChars("Original View", "original_view");
  }

  /**
   * With a truthy original URL the original's entry comes first, then the
   * steps' entries; without one, only the steps' entries.
   */
  lemma OriginalEntryFirst(steps: seq<GenerationStep>, originalImageUrl: Option<string>)
    ensures originalImageUrl.Some? && StartsWith(originalImageUrl.value, "blob:") ==>
              ArchiveEntries(AllImages(steps, originalImageUrl))
              == [FetchedEntry("original_view.png", originalImageUrl.value)] + ArchiveEntries(steps)
    ensures !(originalImageUrl.Some? && originalImageUrl.value != "") ==>
              ArchiveEntries(AllImages(steps, originalImageUrl)) == ArchiveEntries(steps)
  {
    if originalImageUrl.Some? && originalImageUrl.value != "" {
      var url := originalImageUrl.value;
      var original := OriginalView(url);
      ArchiveEntriesAppend([original], steps);
      assert ArchiveEntries([original]) == EntryFor(original) by {
        assert [original][..0] == [];
      }
      if StartsWith(url, "blob:") {
        OriginalFilename();
        assert EntryFor(original) == [FetchedEntry("original_view.png", url)];
      }
    }
  }

  /** A step carrying a data URL contributes one base64 entry: its payload, under its title's name. */
  lemma DataUrlEntry(step: GenerationStep)
    requires step.imageUrl.Some? && StartsWith(step.imageUrl.value, "data:")
    ensures EntryFor(step) == [Base64Entry(Filename(step.title), Base64Payload(step.imageUrl.value))]
  {
    var url := step.imageUrl.value;
    assert url[..5] != "blob:" by {
      assert url[..5][0] == 'd';
    }
  }

  /** Images that each contribute exactly one known entry give those entries, in order. */
  lemma {:induction false} OneEntryEach(images: seq<GenerationStep>, expected: seq<ArchiveEntry>)
    requires |expected| == |images|
    requires forall i :: 0 <= i < |images| ==> EntryFor(images[i]) == [expected[i]]
    ensures ArchiveEntries(images) == expected
  {
    if images != [] {
      var n := |images|;
      var front, rest := images[..n - 1], expected[..n - 1];
      forall i | 0 <= i < n - 1
        ensures EntryFor(front[i]) == [rest[i]]
      {
        assert front[i] == images[i] && rest[i] == expected[i];
      }
      OneEntryEach(front, rest);
      assert ArchiveEntries(images) == rest + [expected[n - 1]];
      LastSplit(expected);
    }
  }

  /** A non-empty sequence is its front followed by its last element. */
  lemma LastSplit<T>(s: seq<T>)
    requires s != []
    ensures s == s[..|s| - 1] + [s[|s| - 1]]
  {
  }

  /** Steps that all carry data URLs contribute one base64 entry each, in order. */
  lemma DataUrlEntries(steps: seq<GenerationStep>)
    requires forall i :: 0 <= i < |steps| ==>
               steps[i].imageUrl.Some? && StartsWith(steps[i].imageUrl.value, "data:")
    ensures |ArchiveEntries(steps)| == |steps|
    ensures forall i :: 0 <= i < |steps| ==>
              ArchiveEntries(steps)[i] == Base64Entry(Filename(steps[i].title), Base64Payload(steps[i].imageUrl.value))
  {
    var expected := seq(|steps|, i requires 0 <= i < |steps| =>
                          Base64Entry(Filename(steps[i].title), Base64Payload(steps[i].imageUrl.value)));
    forall i | 0 <= i < |steps|
      ensures EntryFor(steps[i]) == [expected[i]]
    {
      DataUrlEntry(steps[i]);
    }
    OneEntryEach(steps, expected);
  }

  /**
   * handleDownloadZip's entry loop: put the original first, then go through
   * the images, skipping those without a URL and those whose URL is neither
   * a blob nor a data URL.
   */
  method CollectArchiveEntries(steps: seq<GenerationStep>, originalImageUrl: Option<string>)
    returns (entries: seq<ArchiveEntry>)
    ensures entries == ArchiveEntries(AllImages(steps, originalImageUrl))
  {
    var allImages := steps;
    if originalImageUrl.Some? && originalImageUrl.value != "" {
      allImages := [OriginalView(originalImageUrl.value)] + allImages;
    }
    entries := [];
    var i := 0;
    while i < |allImages|
      invariant 0 <= i <= |allImages|
      invariant entries == ArchiveEntries(allImages[..i])
    {
      var image := allImages[i];
      assert ArchiveEntries(allImages[..i + 1]) == entries + EntryFor(image) by {
        assert allImages[..i + 1][..i] == allImages[..i];
      }
      if image.imageUrl.None? || image.imageUrl.value == "" {
        i := i + 1;
        continue;
      }
      var url := image.imageUrl.value;
      var filename := Filename(image.title);
      if StartsWith(url, "blob:") {
        entries := entries + [FetchedEntry(filename, url)];
      } else if StartsWith(url, "data:") {
        var base64Data := Base64Payload(url);
        entries := entries + [Base64Entry(filename, base64Data)];
      }
      i := i + 1;
    }
    assert allImages[..i] == allImages;
  }

  // ---------------------------------------------------------------------------
  // The readme's asset list

  /** The file names the archive's readme announces. */
  const ReadmeAssetNames: seq<string> := [
    "original_view.png",
    "opposite_view.png",
    "front_view.png",
    "back_view.png",
    "3-4_view.png",
    "top_down_view.png",
    "bottom_up_view.png"
  ]

  /** The readme announces 3-4_view.png, but the 3/4 view is archived as 3_4_view.png. */
  lemma ReadmeNamesAbsentFile()
    ensures Filename("3/4 View") == "3_4_view.png"
    ensures "3_4_view.png" !in ReadmeAssetNames
    ensures forall title :: Filename(title) != "3-4_view.png"
  {
    FilenameByChars("3/4 View", "3_4_view");
    forall title: string ensures Filename(title) != "3-4_view.png" {
      if |title| >= 2 {
        StemChars(title);
        assert Filename(title)[1] == FilenameStem(title)[1] != '-';
      }
    }
  }

  /** A readme list taken from the entries themselves: one name per archived file, in order. */
  function ReadmeAssetList(entries: seq<ArchiveEntry>): (names: seq<string>)
    ensures |names| == |entries|
    ensures forall i :: 0 <= i < |entries| ==> names[i] == entries[i].filename
  {
    if entries == [] then [] else [entries[0].filename] + ReadmeAssetList(entries[1..])
  }
}

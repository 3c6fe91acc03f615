/**
 The attachment register's page list and its fences.

 Every `await` splits the source's handlers into atomic steps. A step function takes the
 register's fields (`Core`) and, after an `await`, the frame of locals the handler captured
 before it. `Register` is the object whose methods perform those steps in place.
 */
module Register {
  import opened Common
  import opened Attachments
  import Rotation = QuietRotation

  datatype Display = Loading | Ready(nextCursor: Option<string>) | Error(message: string)

  datatype Response = Response(attachments: seq<Attachment>, nextCursor: Option<string>)

  /** The register's refs and state. `shown` is the displayed list, `snapshot` its lagging ref copy. */
  datatype Core = Core(
    filter: Filter,
    display: Display,
    shown: seq<Attachment>,
    snapshot: seq<Attachment>,
    pages: seq<Page>,
    requestCounter: nat,
    quietCounter: nat,
    manualCount: int,
    offset: nat)

  /** Locals of a reload or a load-more across its `await`. */
  datatype ManualFrame = ManualFrame(requestId: nat, append: bool, after: Option<string>, filter: Filter)

  /** Locals of a quiet pass across the `await` for page `index`; `rest` is what the loop has left. */
  datatype QuietFrame = QuietFrame(
    observed: nat,
    quietId: nat,
    forced: bool,
    index: nat,
    page: Page,
    rest: seq<nat>,
    filter: Filter)

  // ---- Page selection. ----

  predicate PageHasAny(page: Page, ids: set<string>) {
    exists k :: 0 <= k < |page.attachments| && page.attachments[k].id in ids
  }

  function ActiveIds(snapshot: seq<Attachment>): set<string> {
    set k | 0 <= k < |snapshot| && HasActiveImport(snapshot[k]) :: snapshot[k].id
  }

  /** Indexes, above 0 and ascending, of the pages holding one of `ids`. */
  function ActivePages(pages: seq<Page>, ids: set<string>): (active: seq<nat>)
    ensures forall i :: 0 <= i < |active| ==> 0 < active[i] < |pages|
    ensures forall i, j :: 0 <= i < j < |active| ==> active[i] < active[j]
    ensures forall p: nat :: p in active <==> 0 < p < |pages| && PageHasAny(pages[p], ids)
  {
    if pages == [] then []
    else
      var last := |pages| - 1;
      var before := ActivePages(pages[..last], ids);
      if 0 < last && PageHasAny(pages[last], ids) then before + [last] else before
  }

  function FindPage(pages: seq<Page>, id: string): (found: Option<nat>)
    ensures found.Some? ==> found.value < |pages| && HasId(pages[found.value].attachments, id)
    ensures found.Some? ==> forall p :: 0 <= p < found.value ==> !HasId(pages[p].attachments, id)
    ensures found.None? ==> forall p :: 0 <= p < |pages| ==> !HasId(pages[p].attachments, id)
  {
    if pages == [] then None
    else
      var last := |pages| - 1;
      var before := FindPage(pages[..last], id);
      if before.Some? then before
      else if HasId(pages[last].attachments, id) then Some(last) else None
  }

  // ---- Manual loads. ----

  function WithoutAfter(pages: seq<Page>, after: Option<string>): seq<Page> {
    if pages == [] then []
    else
      var last := |pages| - 1;
      var before := WithoutAfter(pages[..last], after);
      if pages[last].after != after then before + [pages[last]] else before
  }

  function LoadStart(c: Core, append: bool, after: Option<string>): (Core, ManualFrame) {
    var requestId := c.requestCounter + 1;
    var fenced := c.(requestCounter := requestId, manualCount := c.manualCount + 1);
    (if append then fenced
     else fenced.(pages := [], offset := 0, display := Loading, shown := []),
     ManualFrame(requestId, append, after, c.filter))
  }

  function Show(c: Core, pages: seq<Page>, nextCursor: Option<string>): Core {
    c.(pages := pages, shown := Flatten(pages), display := Display.Ready(nextCursor))
  }

  function LoadOk(c: Core, f: ManualFrame, r: Response): Core {
    var settled := c.(manualCount := c.manualCount - 1);
    if f.requestId != c.requestCounter then settled
    else
      var page := Page(f.after, r.attachments, r.nextCursor, f.filter);
      var pages := if f.append then WithoutAfter(c.pages, f.after) + [page] else [page];
      Show(settled, pages, r.nextCursor)
  }

  function LoadFail(c: Core, f: ManualFrame, message: string): Core {
    var settled := c.(manualCount := c.manualCount - 1);
    if f.requestId != c.requestCounter then settled else settled.(display := Error(message))
  }

  // ---- Quiet passes. ----

  predicate Fenced(c: Core, f: QuietFrame) {
    || f.observed != c.requestCounter
    || f.quietId != c.quietCounter
    || (c.manualCount > 0 && !f.forced)
  }

  /** The loop head: skip indexes whose page is gone, capture the next page that is there. */
  function NextFetch(pages: seq<Page>, f: QuietFrame): Option<QuietFrame>
    decreases |f.rest|
  {
    if f.rest == [] then None
    else
      var next := f.(index := f.rest[0], rest := f.rest[1..]);
      if next.index < |pages| then Some(next.(page := pages[next.index])) else NextFetch(pages, next)
  }

  function QuietTargets(c: Core, refreshId: Option<string>): seq<nat> {
    var found := if refreshId.Some? then FindPage(c.pages, refreshId.value) else None;
    if found.Some? then [found.value]
    else [0] + Rotation.Selected(ActivePages(c.pages, ActiveIds(c.snapshot)), c.offset)
  }

  /** A pass asks for at most five different pages that exist; page 0 is one of them unless one page is forced. */
  lemma QuietTargetsAreBounded(c: Core, refreshId: Option<string>)
    requires c.pages != []
    ensures var targets := QuietTargets(c, refreshId);
            && 1 <= |targets| <= Rotation.MAX_QUIET_REFRESH_PAGES
            && (forall i :: 0 <= i < |targets| ==> targets[i] < |c.pages|)
            && (forall i, j :: 0 <= i < j < |targets| ==> targets[i] != targets[j])
            && (|| targets[0] == 0
                || (refreshId.Some? && |targets| == 1 && HasId(c.pages[targets[0]].attachments, refreshId.value)))
  {
    var active := ActivePages(c.pages, ActiveIds(c.snapshot));
    Rotation.PassIsBounded(active, c.offset);
    var targets := [0] + Rotation.Selected(active, c.offset);
    forall i | 1 <= i < |targets|
      ensures targets[i] in active
    {
      assert targets[i] in Rotation.Selected(active, c.offset);
    }
  }

  function QuietStart(c: Core, refreshId: Option<string>, filter: Filter): (Core, Option<QuietFrame>) {
    if c.manualCount > 0 && refreshId.None? then (c, None)
    else
      var quietId := c.quietCounter + 1;
      var numbered := c.(quietCounter := quietId);
      if c.pages == [] then (numbered, None)
      else
        var active := ActivePages(c.pages, ActiveIds(c.snapshot));
        (numbered.(offset := Rotation.NextOffset(c.offset, |active|)),
         NextFetch(c.pages, QuietFrame(c.requestCounter, quietId, refreshId.Some?, 0, c.pages[0],
                                       QuietTargets(c, refreshId), filter)))
  }

  function AfterAt(pages: seq<Page>, index: nat): Option<string> {
    if index < |pages| then pages[index].after else None
  }

  // An index past the end never reaches this assignment: see LiveQuietFrame.
  function SetPage(pages: seq<Page>, index: nat, page: Page): seq<Page> {
    if index < |pages| then pages[index := page] else pages + [page]
  }

  function QuietOk(c: Core, f: QuietFrame, r: Response): (Core, Option<QuietFrame>) {
    if Fenced(c, f) || AfterAt(c.pages, f.index) != f.page.after then (c, None)
    else
      var page := Page(f.page.after, r.attachments, r.nextCursor, f.filter);
      var replaced := SetPage(c.pages, f.index, page);
      var cursorChanged := r.nextCursor != f.page.nextCursor;
      var pages := if cursorChanged && f.index < |replaced| then replaced[..f.index + 1] else replaced;
      var shown := Show(c, pages, pages[|pages| - 1].nextCursor);
      (shown, if cursorChanged then None else NextFetch(pages, f))
  }

  function QuietFail(c: Core, f: QuietFrame, message: string): Core {
    if Fenced(c, f) then c else c.(display := Error(message))
  }

  // ---- Imports and effects. ----

  function Bump(c: Core): Core {
    c.(requestCounter := c.requestCounter + 1)
  }

  function ImportAck(c: Core, id: string, record: ImportRecord): Core {
    var f := Acknowledge(id, record);
    Bump(c).(
      shown := MapList(f, c.shown),
      display := Display.Ready(if c.display.Ready? then c.display.nextCursor else None),
      pages := MapPages(f, c.pages))
  }

  /** The register as the object the component's refs and state make up. */
  class Register {
    var filter: Filter
    var display: Display
    var shown: seq<Attachment>
    var snapshot: seq<Attachment>
    var loadedPages: seq<Page>
    var requestCounter: nat
    var quietRequestCounter: nat
    var manualRequestCount: int
    var quietPageOffset: nat

    function View(): Core
      reads this
    {
      Core(filter, display, shown, snapshot, loadedPages,
           requestCounter, quietRequestCounter, manualRequestCount, quietPageOffset)
    }

    constructor (filter: Filter)
      ensures View() == Initial(filter)
    {
      this.filter := filter;
      display, shown, snapshot, loadedPages := Loading, [], [], [];
      requestCounter, quietRequestCounter, manualRequestCount, quietPageOffset := 0, 0, 0, 0;
    }

    method BeginLoad(append: bool, after: Option<string>) returns (frame: ManualFrame)
      modifies this
      ensures (View(), frame) == LoadStart(old(View()), append, after)
    {
      requestCounter := requestCounter + 1;
      frame := ManualFrame(requestCounter, append, after, filter);
      manualRequestCount := manualRequestCount + 1;
      if !append {
        loadedPages := [];
        quietPageOffset := 0;
        display, shown := Loading, [];
      }
    }

    method FinishLoad(frame: ManualFrame, outcome: Result<Response, string>)
      modifies this
      ensures View() == match outcome
                        case Ok(r) => LoadOk(old(View()), frame, r)
                        case Err(message) => LoadFail(old(View()), frame, message)
    {
      if frame.requestId == requestCounter {
        match outcome {
          case Ok(response) =>
            var nextPage := Page(frame.after, response.attachments, response.nextCursor, frame.filter);
            var pages := if frame.append then WithoutAfter(loadedPages, frame.after) + [nextPage] else [nextPage];
            loadedPages := pages;
            shown := FlattenPages(pages);
            display := Display.Ready(response.nextCursor);
          case Err(message) =>
            display := Error(message);
        }
      }
      manualRequestCount := manualRequestCount - 1;
    }

    method BeginQuiet(refreshId: Option<string>, captured: Filter) returns (frame: Option<QuietFrame>)
      modifies this
      ensures (View(), frame) == QuietStart(old(View()), refreshId, captured)
    {
      if manualRequestCount > 0 && refreshId.None? {
        return None;
      }
      var observed := requestCounter;
      quietRequestCounter := quietRequestCounter + 1;
      var quietId := quietRequestCounter;
      if loadedPages == [] {
        return None;
      }
      var active := ActivePages(loadedPages, ActiveIds(snapshot));
      var targets := QuietTargets(View(), refreshId);
      quietPageOffset := Rotation.NextOffset(quietPageOffset, |active|);
      frame := NextFetch(loadedPages,
                         QuietFrame(observed, quietId, refreshId.Some?, 0, loadedPages[0], targets, captured));
    }

    method FinishQuiet(frame: QuietFrame, outcome: Result<Response, string>) returns (next: Option<QuietFrame>)
      modifies this
      ensures (View(), next) == match outcome
                                case Ok(r) => QuietOk(old(View()), frame, r)
                                case Err(message) => (QuietFail(old(View()), frame, message), None)
    {
      if Fenced(View(), frame) {
        return None;
      }
      match outcome {
        case Err(message) =>
          display := Error(message);
          next := None;
        case Ok(response) =>
          if AfterAt(loadedPages, frame.index) != frame.page.after {
            return None;
          }
          var cursorChanged := response.nextCursor != frame.page.nextCursor;
          var pages := SetPage(loadedPages, frame.index,
                               Page(frame.page.after, response.attachments, response.nextCursor, frame.filter));
          if cursorChanged && frame.index < |pages| {
            pages := pages[..frame.index + 1];
          }
          loadedPages := pages;
          shown := FlattenPages(pages);
          display := Display.Ready(pages[|pages| - 1].nextCursor);
          next := if cursorChanged then None else NextFetch(pages, frame);
      }
    }

    method AcknowledgeImport(id: string, record: ImportRecord)
      modifies this
      ensures View() == ImportAck(old(View()), id, record)
    {
      requestCounter := requestCounter + 1;
      shown := MapList(Attachments.Acknowledge(id, record), shown);
      display := Display.Ready(if display.Ready? then display.nextCursor else None);
      loadedPages := MapPages(Attachments.Acknowledge(id, record), loadedPages);
    }
  }

  function Initial(filter: Filter): Core {
    Core(filter, Loading, [], [], [], 0, 0, 0, 0)
  }
}

/**
 * The drawing page of the frontend: the colour and brush state, the
 * `drawingAutoSave` slot of the browser's local storage that the 30-second
 * timer overwrites, the clear button deletes and a fully successful share
 * deletes, and the two requests a share sends.
 *
 * The canvas itself is the `react-canvas-draw` component, whose strokes,
 * undo and serialisation this page never sees: it is modelled by the text
 * its `getSaveData()` returns, or `None` once the page is unmounted. What
 * the library produces (the data after a stroke, an undo or a clear, the
 * PNG data URL) and what the server answers arrive as event parameters.
 */
module DrawPage {
  import opened Wrappers
  import opened Schema

  const AutoSaveKey := "drawingAutoSave"

  /** The twelve colour buttons. */
  const Palette: seq<string> := [
    "#000000", "#FF0000", "#00FF00", "#0000FF",
    "#FFFF00", "#FF00FF", "#00FFFF", "#FFA500",
    "#800080", "#FFC0CB", "#8B4513", "#808080"]

  const InitialColor := "#000000"
  const InitialBrushRadius := 5
  /** The bounds of the brush-size range input. */
  const MinBrushRadius := 1
  const MaxBrushRadius := 20

  const FeedPath := "/"
  const FailureAlert := "Failed to save drawing. Please try again."

  /** Where an ongoing share stands: waiting for `/drawings/save`, then for `/posts/`. */
  datatype Phase = Idle | AwaitingSave(drawingData: string) | AwaitingPost(drawingData: string)

  /** A request the page sends to the backend. */
  datatype Request =
    | SaveDrawingRequest(drawingData: string, imageData: string)
    | CreatePostRequest(postType: PostType, mediaUrl: string, drawingData: string)

  /** Everything the page reads and writes. */
  datatype Page = Page(
    canvas: Option<string>,
    storage: map<string, string>,
    color: string,
    brushRadius: int,
    isSaving: bool,
    phase: Phase,
    timerRunning: bool,
    sent: seq<Request>,
    location: string,
    alerts: seq<string>)

  /** What can happen to the page: a user action, the timer, a server answer, the unmount. */
  datatype Event =
    | Tick
    | Stroke(after: string)
    | Undo(after: string)
    | Clear(blank: string)
    | PickColor(index: int)
    | SetBrushRadius(radius: int)
    | Share(imageData: string)
    | SaveResponse(imageUrl: Option<string>)
    | PostResponse(ok: bool)
    | Unmount

  /**
   * The page right after mounting on a canvas showing `blank`: the interval
   * is started, and a non-empty saved slot is loaded into the canvas.
   */
  function Mounted(storage: map<string, string>, blank: string, location: string): Page
  {
    var restored := if AutoSaveKey in storage && storage[AutoSaveKey] != "" then storage[AutoSaveKey] else blank;
    Page(Some(restored), storage, InitialColor, InitialBrushRadius, false, Idle, true, [], location, [])
  }

  /** The `catch` and `finally` of a share: alert, and stop saving. */
  function ShareFailed(p: Page): Page
  {
    p.(alerts := p.alerts + [FailureAlert], isSaving := false, phase := Idle)
  }

  /**
   * The page once `Draw` is unmounted, because the user left it or because
   * `navigate('/')` replaced it with the feed: the effect cleanup has cleared
   * the interval and the canvas ref is gone.
   */
  function Left(p: Page): Page
  {
    p.(canvas := None, timerRunning := false)
  }

  /** The effect of one event; an event that cannot take effect leaves the page as it is. */
  function Step(p: Page, e: Event): Page
  {
    match e
    case Tick =>
      if p.timerRunning && p.canvas.Some? then p.(storage := p.storage[AutoSaveKey := p.canvas.value]) else p
    case Stroke(after) =>
      if p.canvas.Some? then p.(canvas := Some(after)) else p
    case Undo(after) =>
      if p.canvas.Some? then p.(canvas := Some(after)) else p
    case Clear(blank) =>
      if p.canvas.Some? then p.(canvas := Some(blank), storage := p.storage - {AutoSaveKey}) else p
    case PickColor(i) =>
      if 0 <= i < |Palette| then p.(color := Palette[i]) else p
    case SetBrushRadius(r) =>
      if MinBrushRadius <= r <= MaxBrushRadius then p.(brushRadius := r) else p
    case Share(imageData) =>
      if p.isSaving || p.canvas.None? then p
      else
        var d := p.canvas.value;
        p.(isSaving := true, phase := AwaitingSave(d), sent := p.sent + [SaveDrawingRequest(d, imageData)])
    case SaveResponse(imageUrl) =>
      if !p.phase.AwaitingSave? then p
      else if imageUrl.None? then ShareFailed(p)
      else
        var d := p.phase.drawingData;
        p.(phase := AwaitingPost(d), sent := p.sent + [CreatePostRequest(PostType.Drawing, imageUrl.value, d)])
    case PostResponse(ok) =>
      if !p.phase.AwaitingPost? then p
      else if ok then Left(p.(storage := p.storage - {AutoSaveKey}, location := FeedPath, isSaving := false, phase := Idle))
      else ShareFailed(p)
    case Unmount =>
      Left(p)
  }

  function Run(p: Page, events: seq<Event>): Page
    decreases |events|
  {
    if events == [] then p else Run(Step(p, events[0]), events[1..])
  }

  /** Running events one after the other is running them in turn. */
  lemma {:induction false} RunAppend(p: Page, events: seq<Event>, e: Event)
    ensures Run(p, events + [e]) == Step(Run(p, events), e)
    decreases |events|
  {
    if events == [] {
      assert Run(Step(p, e), []) == Step(p, e);
      assert ([] + [e])[1..] == [];
    } else {
      assert (events + [e])[1..] == events[1..] + [e];
      RunAppend(Step(p, events[0]), events[1..], e);
    }
  }

  lemma {:induction false} RunConcat(p: Page, a: seq<Event>, b: seq<Event>)
    ensures Run(p, a + b) == Run(Run(p, a), b)
    decreases |a|
  {
    if a != [] {
      assert (a + b)[1..] == a[1..] + b;
      RunConcat(Step(p, a[0]), a[1..], b);
    } else {
      assert a + b == b;
    }
  }

  /** Every post request follows the save request of the same drawing data. */
  predicate RequestsPaired(sent: seq<Request>)
  {
    forall i :: 0 <= i < |sent| && sent[i].CreatePostRequest? ==>
      && 0 < i
      && sent[i - 1].SaveDrawingRequest?
      && sent[i - 1].drawingData == sent[i].drawingData
      && sent[i].postType == PostType.Drawing
  }

  /** The phase of a share matches the last request sent. */
  predicate PhaseMatchesRequests(p: Page)
  {
    && (p.phase.AwaitingSave? ==>
          |p.sent| > 0 && p.sent[|p.sent| - 1].SaveDrawingRequest? && p.sent[|p.sent| - 1].drawingData == p.phase.drawingData)
    && (p.phase.AwaitingPost? ==>
          |p.sent| > 0 && p.sent[|p.sent| - 1].CreatePostRequest? && p.sent[|p.sent| - 1].drawingData == p.phase.drawingData)
  }

  /** The controls show a palette colour and a brush size the slider offers. */
  predicate ToolsInRange(p: Page)
  {
    p.color in Palette && MinBrushRadius <= p.brushRadius <= MaxBrushRadius
  }

  /** What holds of the page at every moment of its life. */
  predicate Inv(p: Page)
  {
    && ToolsInRange(p)
    && (p.isSaving <==> !p.phase.Idle?)
    && RequestsPaired(p.sent)
    && PhaseMatchesRequests(p)
  }

  lemma MountedInv(storage: map<string, string>, blank: string, location: string)
    ensures Inv(Mounted(storage, blank, location))
  {
    assert Palette[0] == InitialColor;
  }

  /** Sending a request keeps the pairing when a post request follows its save request. */
  lemma SendKeepsPaired(sent: seq<Request>, req: Request)
    requires RequestsPaired(sent)
    requires req.CreatePostRequest? ==>
      && |sent| > 0 && sent[|sent| - 1].SaveDrawingRequest?
      && sent[|sent| - 1].drawingData == req.drawingData && req.postType == PostType.Drawing
    ensures RequestsPaired(sent + [req])
  {
    var after := sent + [req];
    forall i | 0 <= i < |after| && after[i].CreatePostRequest?
      ensures 0 < i && after[i - 1].SaveDrawingRequest? && after[i - 1].drawingData == after[i].drawingData
      ensures after[i].postType == PostType.Drawing
    {
      if i < |sent| {
        assert after[i] == sent[i] && after[i - 1] == sent[i - 1];
      }
    }
  }

  lemma StepKeepsTools(p: Page, e: Event)
    requires ToolsInRange(p)
    ensures ToolsInRange(Step(p, e))
  {
    if e.PickColor? && 0 <= e.index < |Palette| {
      assert Step(p, e).color == Palette[e.index];
    }
  }

  lemma StepKeepsRequests(p: Page, e: Event)
    requires (p.isSaving <==> !p.phase.Idle?) && RequestsPaired(p.sent) && PhaseMatchesRequests(p)
    ensures var q := Step(p, e);
      (q.isSaving <==> !q.phase.Idle?) && RequestsPaired(q.sent) && PhaseMatchesRequests(q)
  {
    match e
    case Share(imageData) =>
      if !p.isSaving && p.canvas.Some? {
        SendKeepsPaired(p.sent, SaveDrawingRequest(p.canvas.value, imageData));
      }
    case SaveResponse(imageUrl) =>
      if p.phase.AwaitingSave? && imageUrl.Some? {
        SendKeepsPaired(p.sent, CreatePostRequest(PostType.Drawing, imageUrl.value, p.phase.drawingData));
      }
    case _ =>
      assert Step(p, e).sent == p.sent;
  }

  lemma StepInv(p: Page, e: Event)
    requires Inv(p)
    ensures Inv(Step(p, e))
  {
    StepKeepsTools(p, e);
    StepKeepsRequests(p, e);
  }

  lemma {:induction false} RunInv(p: Page, events: seq<Event>)
    requires Inv(p)
    ensures Inv(Run(p, events))
    decreases |events|
  {
    if events != [] {
      StepInv(p, events[0]);
      RunInv(Step(p, events[0]), events[1..]);
    }
  }

  /** Whatever happens after mounting, the colour is a palette colour and the brush is in range. */
  lemma ReachableInv(storage: map<string, string>, blank: string, location: string, events: seq<Event>)
    ensures var p := Run(Mounted(storage, blank, location), events);
      p.color in Palette && MinBrushRadius <= p.brushRadius <= MaxBrushRadius &&
      (p.isSaving <==> !p.phase.Idle?) && RequestsPaired(p.sent)
  {
    MountedInv(storage, blank, location);
    RunInv(Mounted(storage, blank, location), events);
  }

  lemma StepOnlyTouchesSlot(p: Page, e: Event)
    ensures Step(p, e).storage - {AutoSaveKey} == p.storage - {AutoSaveKey}
  {
    var q := Step(p, e);
    assert forall k :: k in q.storage - {AutoSaveKey} <==> k in p.storage - {AutoSaveKey};
  }

  /** The page never reads or writes a storage entry other than its own slot. */
  lemma {:induction false} RunOnlyTouchesSlot(p: Page, events: seq<Event>)
    ensures Run(p, events).storage - {AutoSaveKey} == p.storage - {AutoSaveKey}
    decreases |events|
  {
    if events != [] {
      StepOnlyTouchesSlot(p, events[0]);
      RunOnlyTouchesSlot(Step(p, events[0]), events[1..]);
    }
  }

  lemma MountRestores(storage: map<string, string>, blank: string, location: string)
    ensures AutoSaveKey in storage && storage[AutoSaveKey] != "" ==> Mounted(storage, blank, location).canvas == Some(storage[AutoSaveKey])
    ensures !(AutoSaveKey in storage && storage[AutoSaveKey] != "") ==> Mounted(storage, blank, location).canvas == Some(blank)
    ensures Mounted(storage, blank, location).storage == storage
  {
  }

  lemma RunTwo(p: Page, a: Event, b: Event)
    ensures Run(p, [a, b]) == Step(Step(p, a), b)
  {
    RunAppend(p, [], a);
    assert [] + [a] == [a];
    RunAppend(p, [a], b);
    assert [a] + [b] == [a, b];
  }

  lemma RunThree(p: Page, a: Event, b: Event, c: Event)
    ensures Run(p, [a, b, c]) == Step(Step(Step(p, a), b), c)
  {
    RunTwo(p, a, b);
    RunAppend(p, [a, b], c);
    assert [a, b] + [c] == [a, b, c];
  }

  /** A timer tick overwrites the slot with the canvas data, and nothing else. */
  lemma TickSaves(p: Page)
    requires p.timerRunning && p.canvas.Some?
    ensures Step(p, Tick).storage == p.storage[AutoSaveKey := p.canvas.value]
    ensures Step(p, Tick).(storage := p.storage) == p
  {
  }

  /** Clearing empties the canvas and forgets the slot. */
  lemma ClearForgets(p: Page, blank: string)
    requires p.canvas.Some?
    ensures Step(p, Clear(blank)).canvas == Some(blank)
    ensures AutoSaveKey !in Step(p, Clear(blank)).storage
  {
  }

  /**
   * The slot disappears only by a clear, or by a post response that succeeded
   * while the share was waiting for it.
   */
  lemma SlotRemovedOnlyBy(p: Page, e: Event)
    requires AutoSaveKey in p.storage && AutoSaveKey !in Step(p, e).storage
    ensures e.Clear? || (e == PostResponse(true) && p.phase.AwaitingPost?)
  {
  }

  /** A share reaches the post stage only when the save returned an image URL. */
  lemma AwaitingPostOnlyAfterUpload(p: Page, e: Event)
    requires !p.phase.AwaitingPost? && Step(p, e).phase.AwaitingPost?
    ensures p.phase.AwaitingSave? && e.SaveResponse? && e.imageUrl.Some?
    ensures Step(p, e).sent == p.sent + [CreatePostRequest(PostType.Drawing, e.imageUrl.value, p.phase.drawingData)]
  {
  }

  /** The share button is disabled while a share is under way. */
  lemma ShareWhileSavingIgnored(p: Page, imageData: string)
    requires p.isSaving
    ensures Step(p, Share(imageData)) == p
  {
  }

  /**
   * A share whose two requests succeed sends the canvas data to
   * `/drawings/save`, posts a drawing with the returned URL and the same
   * data, forgets the slot and goes to the feed, which unmounts the page.
   */
  lemma ShareSucceeds(p: Page, imageData: string, url: string)
    requires Inv(p) && !p.isSaving && p.canvas.Some?
    ensures var q := Run(p, [Share(imageData), SaveResponse(Some(url)), PostResponse(true)]);
      && q.sent == p.sent + [SaveDrawingRequest(p.canvas.value, imageData), CreatePostRequest(PostType.Drawing, url, p.canvas.value)]
      && q.storage == p.storage - {AutoSaveKey}
      && q.location == FeedPath
      && !q.isSaving && q.phase == Idle
      && q.alerts == p.alerts
      && q.canvas.None? && !q.timerRunning
  {
    RunThree(p, Share(imageData), SaveResponse(Some(url)), PostResponse(true));
  }

  /**
   * A page that has been left with no share under way never writes the slot
   * again, nor sends a request, whatever events still arrive.
   */
  lemma {:induction false} LeftPageIsInert(p: Page, events: seq<Event>)
    requires p.canvas.None? && p.phase.Idle?
    ensures var q := Run(p, events);
      q.storage == p.storage && q.sent == p.sent && q.location == p.location && q.canvas.None? && q.phase.Idle?
    decreases |events|
  {
    if events != [] {
      LeftPageIsInert(Step(p, events[0]), events[1..]);
    }
  }

  /** After a successful share, a later timer tick cannot bring the slot back. */
  lemma NoSaveAfterShare(p: Page, imageData: string, url: string, later: seq<Event>)
    requires Inv(p) && !p.isSaving && p.canvas.Some?
    ensures AutoSaveKey !in Run(p, [Share(imageData), SaveResponse(Some(url)), PostResponse(true)] + later).storage
  {
    var events := [Share(imageData), SaveResponse(Some(url)), PostResponse(true)];
    ShareSucceeds(p, imageData, url);
    RunConcat(p, events, later);
    LeftPageIsInert(Run(p, events), later);
  }

  /** A share whose save request fails alerts and leaves the slot and the location alone. */
  lemma ShareSaveFails(p: Page, imageData: string)
    requires Inv(p) && !p.isSaving && p.canvas.Some?
    ensures var q := Run(p, [Share(imageData), SaveResponse(None)]);
      && q.sent == p.sent + [SaveDrawingRequest(p.canvas.value, imageData)]
      && q.storage == p.storage
      && q.location == p.location
      && !q.isSaving && q.phase == Idle
      && q.alerts == p.alerts + [FailureAlert]
  {
    RunTwo(p, Share(imageData), SaveResponse(None));
  }

  /** A share whose post request fails alerts and leaves the slot and the location alone. */
  lemma SharePostFails(p: Page, imageData: string, url: string)
    requires Inv(p) && !p.isSaving && p.canvas.Some?
    ensures var q := Run(p, [Share(imageData), SaveResponse(Some(url)), PostResponse(false)]);
      && q.sent == p.sent + [SaveDrawingRequest(p.canvas.value, imageData), CreatePostRequest(PostType.Drawing, url, p.canvas.value)]
      && q.storage == p.storage
      && q.location == p.location
      && !q.isSaving && q.phase == Idle
      && q.alerts == p.alerts + [FailureAlert]
  {
    RunThree(p, Share(imageData), SaveResponse(Some(url)), PostResponse(false));
  }

  /** The mounted `Draw` component, its state kept in fields as React keeps it. */
  class DrawScreen {
    var canvas: Option<string>
    var storage: map<string, string>
    var color: string
    var brushRadius: int
    var isSaving: bool
    var phase: Phase
    var timerRunning: bool
    var sent: seq<Request>
    var location: string
    var alerts: seq<string>

    function State(): Page
      reads this
    {
      Page(canvas, storage, color, brushRadius, isSaving, phase, timerRunning, sent, location, alerts)
    }

    /** Mounting: start the auto-save interval, then restore a saved drawing. */
    constructor Mount(initialStorage: map<string, string>, blank: string, initialLocation: string)
      ensures State() == Mounted(initialStorage, blank, initialLocation)
      ensures Inv(State())
    {
      canvas := Some(blank);
      storage := initialStorage;
      color := InitialColor;
      brushRadius := InitialBrushRadius;
      isSaving := false;
      phase := Idle;
      timerRunning := true;
      sent := [];
      location := initialLocation;
      alerts := [];
      new;
      if AutoSaveKey in storage {
        var savedDrawing := storage[AutoSaveKey];
        if savedDrawing != "" && canvas.Some? {
          canvas := Some(savedDrawing);
        }
      }
      MountedInv(initialStorage, blank, initialLocation);
    }

    /** `autoSave`, run by the interval every 30 seconds while it is set. */
    method AutoSave()
      requires timerRunning
      modifies this
      ensures State() == Step(old(State()), Tick)
    {
      if canvas.Some? {
        storage := storage[AutoSaveKey := canvas.value];
      }
    }

    /** A stroke drawn on the canvas; `after` is the save data the library then reports. */
    method DrawStroke(after: string)
      modifies this
      ensures State() == Step(old(State()), Stroke(after))
    {
      if canvas.Some? {
        canvas := Some(after);
      }
    }

    /** `undoLast`; `after` is the save data the library reports after its undo. */
    method UndoLast(after: string)
      modifies this
      ensures State() == Step(old(State()), Undo(after))
    {
      if canvas.Some? {
        canvas := Some(after);
      }
    }

    /** `clearCanvas`; `blank` is the save data of the cleared canvas. */
    method ClearCanvas(blank: string)
      modifies this
      ensures State() == Step(old(State()), Clear(blank))
    {
      if canvas.Some? {
        canvas := Some(blank);
        storage := storage - {AutoSaveKey};
      }
    }

    /** A click on the colour button at `index`. */
    method PickColor(index: int)
      modifies this
      ensures State() == Step(old(State()), Event.PickColor(index))
    {
      if 0 <= index < |Palette| {
        color := Palette[index];
      }
    }

    /** A move of the brush-size slider, whose values lie in 1..20. */
    method SetBrushRadius(radius: int)
      modifies this
      ensures State() == Step(old(State()), Event.SetBrushRadius(radius))
    {
      if MinBrushRadius <= radius <= MaxBrushRadius {
        brushRadius := radius;
      }
    }

    /**
     * A click on the share button: `saveDrawing` up to its first `await`.
     * `imageData` is the PNG data URL of the canvas.
     */
    method ShareDrawing(imageData: string)
      modifies this
      ensures State() == Step(old(State()), Share(imageData))
    {
      if isSaving {
        return;
      }
      if canvas.None? {
        return;
      }
      isSaving := true;
      var drawingData := canvas.value;
      sent := sent + [SaveDrawingRequest(drawingData, imageData)];
      phase := AwaitingSave(drawingData);
    }

    /** The answer to `/drawings/save`: the image URL, or `None` when the request failed. */
    method OnSaveResponse(imageUrl: Option<string>)
      modifies this
      ensures State() == Step(old(State()), SaveResponse(imageUrl))
    {
      if !phase.AwaitingSave? {
        return;
      }
      var drawingData := phase.drawingData;
      if imageUrl.None? {
        alerts := alerts + [FailureAlert];
        isSaving := false;
        phase := Idle;
      } else {
        sent := sent + [CreatePostRequest(PostType.Drawing, imageUrl.value, drawingData)];
        phase := AwaitingPost(drawingData);
      }
    }

    /** The answer to `/posts/`: whether the post was created. */
    method OnPostResponse(ok: bool)
      modifies this
      ensures State() == Step(old(State()), PostResponse(ok))
    {
      if !phase.AwaitingPost? {
        return;
      }
      if ok {
        storage := storage - {AutoSaveKey};
        location := FeedPath;
        // the feed route replaces `Draw`, whose effect cleanup then runs
        canvas := None;
        timerRunning := false;
      } else {
        alerts := alerts + [FailureAlert];
      }
      isSaving := false;
      phase := Idle;
    }

    /** Leaving the page: the interval is cleared and the canvas goes away. */
    method Unmount()
      modifies this
      ensures State() == Step(old(State()), Event.Unmount)
    {
      canvas := None;
      timerRunning := false;
    }
  }
}

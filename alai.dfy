/**
 * The calls to the presentation service: a presentation with its title slide,
 * an optional content slide, and the share link. The service is a recorded
 * trace of the requests sent plus a reply oracle that may answer each request
 * depending on everything sent before it; `uuidv4` is an oracle of identifiers.
 */
module Alai {
  import opened Results
  import opened Scraper
  import opened SlidePayload

  const ThemeId: string := "a6bff6e5-3afc-4336-830b-fbc710081012"
  const TitlePrefix: string := "Presentation: "
  const ProductType: string := "PRESENTATION_CREATOR"
  const ContentSlideOrder: nat := 1
  const CreateFailed: string := "Failed to create Alai presentation"
  const ShareFailed: string := "Failed to get shareable link"
  const ViewPrefix: string := "https://app.getalai.com/view/"

  /** A request body sent to one of the service's endpoints. */
  datatype Call =
    | CreateNewPresentation(presentationId: string, presentationTitle: string, createFirstSlide: bool, defaultColorSetId: nat, themeId: string)
    | CreateSlideVariant(slideId: string, variant: SlideVariant)
    | SetActiveVariant(slideId: string, variantId: string)
    | CreateNewSlide(slideId: string, presentationId: string, productType: string, slideOrder: nat, colorSetId: nat)
    | UpsertPresentationShare(presentationId: string, isPublic: bool)

  /**
   * The service's answer to a request: a failure (a thrown request), or the
   * parts of the response body the code reads: `slides[0].id` ("" when it is
   * missing), `id`, and the whole body as text.
   */
  datatype Reply = Failed | Replied(firstSlideId: string, id: string, body: string)

  /** The endpoint a request goes to. */
  datatype Step = Create | Variant | Activate | NewSlide | Share

  function StepOf(c: Call): Step {
    match c
    case CreateNewPresentation(_, _, _, _, _) => Create
    case CreateSlideVariant(_, _) => Variant
    case SetActiveVariant(_, _) => Activate
    case CreateNewSlide(_, _, _, _, _) => NewSlide
    case UpsertPresentationShare(_, _) => Share
  }

  /** The endpoints of a sequence of requests, in order. */
  function Steps(calls: seq<Call>): (r: seq<Step>)
    ensures |r| == |calls|
  {
    seq(|calls|, i requires 0 <= i < |calls| => StepOf(calls[i]))
  }

  /**
   * The requests a presentation needs: create it, submit and activate the
   * title variant, then, when there are main points, create a second slide and
   * submit and activate its variant.
   */
  function Plan(hasPoints: bool): (r: seq<Step>)
    ensures |r| == if hasPoints then 6 else 3
  {
    [Create, Variant, Activate] + (if hasPoints then [NewSlide, Variant, Activate] else [])
  }

  /** How many identifiers the client draws for a request: one per new presentation or slide, two per variant. */
  function IdsFor(s: Step): nat {
    match s
    case Create => 1
    case Variant => 2
    case NewSlide => 1
    case _ => 0
  }

  /** How many identifiers the client draws for a sequence of requests. */
  function IdsDrawn(steps: seq<Step>): nat
    decreases |steps|
  {
    if steps == [] then 0 else IdsDrawn(steps[..|steps| - 1]) + IdsFor(steps[|steps| - 1])
  }

  /** The service's reply to a request, given every request sent before it. */
  type Responder = (seq<Call>, Call) -> Reply

  /** The reply to the `k`-th request of `calls`, sent after `history` and the requests before it. */
  function ReplyTo(respond: Responder, history: seq<Call>, calls: seq<Call>, k: nat): Reply
    requires k < |calls|
  {
    respond(history + calls[..k], calls[k])
  }

  /** Every request of `calls` was answered without failure. */
  predicate AllReplied(respond: Responder, history: seq<Call>, calls: seq<Call>) {
    forall k | 0 <= k < |calls| :: ReplyTo(respond, history, calls, k).Replied?
  }

  /**
   * Every activation comes right after a variant request for the same slide
   * that was answered, and activates the id the service returned for it.
   */
  predicate ActivationsFollowVariants(respond: Responder, history: seq<Call>, calls: seq<Call>) {
    forall k | 0 <= k < |calls| && calls[k].SetActiveVariant? ::
      && k > 0
      && calls[k - 1].CreateSlideVariant?
      && calls[k].slideId == calls[k - 1].slideId
      && ReplyTo(respond, history, calls, k - 1).Replied?
      && calls[k].variantId == ReplyTo(respond, history, calls, k - 1).id
  }

  /**
   * The requests `createTitleSlideVariant` and `createContentSlideVariant` send:
   * the variant, then, unless that request fails, the activation of the id the
   * service returned.
   */
  function VariantRun(respond: Responder, history: seq<Call>, slideId: string, headingId: string, bodyId: string, heading: string, body: string): seq<Call> {
    var submit := CreateSlideVariant(slideId, TitleAndBody(headingId, bodyId, heading, body));
    match respond(history, submit)
    case Failed => [submit]
    case Replied(_, id, _) => [submit, SetActiveVariant(slideId, id)]
  }

  /** The request that creates the presentation, with the client-drawn id `uuid(n)`. */
  function CreateCall(uuid: nat -> string, n: nat, content: ScrapedContent): Call {
    CreateNewPresentation(uuid(n), TitlePrefix + content.title, true, 0, ThemeId)
  }

  /** `!createResponse.data.slides[0]?.id`: the creation failed or gave no first slide. */
  predicate NoFirstSlide(reply: Reply) {
    reply.Failed? || reply.firstSlideId == ""
  }

  /** The first slide id the creation returned, "" when it failed. */
  function FirstSlideId(reply: Reply): string {
    if reply.Failed? then "" else reply.firstSlideId
  }

  /** The requests for the title slide's variant, sent after the creation. */
  function TitleRun(respond: Responder, uuid: nat -> string, history: seq<Call>, n: nat, content: ScrapedContent): seq<Call> {
    var h1 := history + [CreateCall(uuid, n, content)];
    VariantRun(respond, h1, FirstSlideId(respond(history, CreateCall(uuid, n, content))), uuid(n + 1), uuid(n + 2), content.title, content.description)
  }

  /**
   * The requests of the content-slide block of `createPresentation`: a new
   * slide with the client-drawn id `uuid(m)`, then, unless that request fails,
   * the variant step for it with the title over the bullet list.
   */
  function ContentRun(respond: Responder, uuid: nat -> string, history: seq<Call>, presentationId: string, m: nat, content: ScrapedContent): seq<Call> {
    var newSlide := CreateNewSlide(uuid(m), presentationId, ProductType, ContentSlideOrder, 0);
    if respond(history, newSlide).Failed? then [newSlide]
    else [newSlide] + VariantRun(respond, history + [newSlide], uuid(m), uuid(m + 1), uuid(m + 2), content.title, BulletList(content.mainPoints))
  }

  /** The title variant was submitted and activated without failure. */
  predicate TitleDone(respond: Responder, uuid: nat -> string, history: seq<Call>, n: nat, content: ScrapedContent) {
    var title := TitleRun(respond, uuid, history, n, content);
    |title| == 2 && AllReplied(respond, history + [CreateCall(uuid, n, content)], title)
  }

  /**
   * The requests `createPresentation` sends after `history` when the client
   * draws identifiers `uuid(n)`, `uuid(n + 1)`, ...: it stops after a request
   * that fails, or after the creation when the new presentation has no first
   * slide, and adds the content slide only when there are main points.
   */
  function PresentationRun(respond: Responder, uuid: nat -> string, history: seq<Call>, n: nat, content: ScrapedContent): seq<Call> {
    var create := CreateCall(uuid, n, content);
    if NoFirstSlide(respond(history, create)) then [create]
    else
      var title := TitleRun(respond, uuid, history, n, content);
      if !TitleDone(respond, uuid, history, n, content) || |content.mainPoints| == 0 then [create] + title
      else [create] + title + ContentRun(respond, uuid, history + [create] + title, uuid(n), n + 3, content)
  }

  /**
   * The remote service. `trace` grows by one request per `axios.post`; `issued`
   * counts the identifiers drawn from `uuid` so far.
   */
  class Service {
    var trace: seq<Call>
    var issued: nat
    const respond: Responder
    const uuid: nat -> string

    constructor(respond: Responder, uuid: nat -> string)
      ensures this.respond == respond && this.uuid == uuid
      ensures trace == [] && issued == 0
    {
      this.respond := respond;
      this.uuid := uuid;
      trace := [];
      issued := 0;
    }

    /** `uuidv4()`. */
    method NewId() returns (id: string)
      modifies this
      ensures id == uuid(old(issued))
      ensures issued == old(issued) + 1 && trace == old(trace)
    {
      id := uuid(issued);
      issued := issued + 1;
    }

    /** `axios.post`: the request is sent whatever the outcome, and the reply depends on all requests so far. */
    method Post(call: Call) returns (reply: Reply)
      modifies this
      ensures trace == old(trace) + [call] && issued == old(issued)
      ensures reply == respond(old(trace), call)
    {
      reply := respond(trace, call);
      trace := trace + [call];
    }

    /**
     * The body of `createTitleSlideVariant` and `createContentSlideVariant`:
     * draws the heading id and the body id, submits the two-row variant, then
     * activates the variant id the service returned; `None` when a request
     * throws.
     */
    method SubmitVariant(slideId: string, heading: string, body: string) returns (variantId: Option<string>)
      modifies this
      ensures issued == old(issued) + 2
      ensures trace == old(trace) + VariantRun(respond, old(trace), slideId, uuid(old(issued)), uuid(old(issued) + 1), heading, body)
      ensures variantId.Some? <==>
        var run := VariantRun(respond, old(trace), slideId, uuid(old(issued)), uuid(old(issued) + 1), heading, body);
        |run| == 2 && AllReplied(respond, old(trace), run)
      ensures variantId.Some? ==>
        variantId.value == VariantRun(respond, old(trace), slideId, uuid(old(issued)), uuid(old(issued) + 1), heading, body)[1].variantId
    {
      var headingId := NewId();
      var bodyId := NewId();
      ghost var run := VariantRun(respond, old(trace), slideId, headingId, bodyId, heading, body);
      VariantRunShape(respond, old(trace), slideId, headingId, bodyId, heading, body);
      var reply := Post(CreateSlideVariant(slideId, TitleAndBody(headingId, bodyId, heading, body)));
      if reply.Failed? {
        return None;
      }
      var activated := Post(SetActiveVariant(slideId, reply.id));
      assert run[..1] == [run[0]] && old(trace) + run[..1] == old(trace) + [run[0]];
      assert ReplyTo(respond, old(trace), run, 1) == activated;
      if activated.Failed? {
        return None;
      }
      assert forall k | 0 <= k < 2 :: ReplyTo(respond, old(trace), run, k).Replied? by {
        assert run[..0] == [] && old(trace) + [] == old(trace);
      }
      return Some(reply.id);
    }

    /** `createTitleSlideVariant`: the title over the description. */
    method CreateTitleSlideVariant(slideId: string, content: ScrapedContent) returns (variantId: Option<string>)
      modifies this
      ensures issued == old(issued) + 2
      ensures trace == old(trace) + VariantRun(respond, old(trace), slideId, uuid(old(issued)), uuid(old(issued) + 1), content.title, content.description)
      ensures variantId.Some? <==>
        var run := VariantRun(respond, old(trace), slideId, uuid(old(issued)), uuid(old(issued) + 1), content.title, content.description);
        |run| == 2 && AllReplied(respond, old(trace), run)
      ensures variantId.Some? ==>
        variantId.value == VariantRun(respond, old(trace), slideId, uuid(old(issued)), uuid(old(issued) + 1), content.title, content.description)[1].variantId
    {
      variantId := SubmitVariant(slideId, content.title, content.description);
    }

    /** `createContentSlideVariant`: the title over the bullet list of the main points. */
    method CreateContentSlideVariant(slideId: string, content: ScrapedContent) returns (variantId: Option<string>)
      modifies this
      ensures issued == old(issued) + 2
      ensures trace == old(trace) + VariantRun(respond, old(trace), slideId, uuid(old(issued)), uuid(old(issued) + 1), content.title, BulletList(content.mainPoints))
      ensures variantId.Some? <==>
        var run := VariantRun(respond, old(trace), slideId, uuid(old(issued)), uuid(old(issued) + 1), content.title, BulletList(content.mainPoints));
        |run| == 2 && AllReplied(respond, old(trace), run)
      ensures variantId.Some? ==>
        variantId.value == VariantRun(respond, old(trace), slideId, uuid(old(issued)), uuid(old(issued) + 1), content.title, BulletList(content.mainPoints))[1].variantId
    {
      var bulletPoints := BulletList(content.mainPoints);
      variantId := SubmitVariant(slideId, content.title, bulletPoints);
    }

    /** `createAdditionalSlide`: a second slide with a client-drawn id; that id is the result. */
    method CreateAdditionalSlide(presentationId: string) returns (slideId: Option<string>)
      modifies this
      ensures issued == old(issued) + 1
      ensures trace == old(trace) + [CreateNewSlide(uuid(old(issued)), presentationId, ProductType, ContentSlideOrder, 0)]
      ensures slideId.Some? <==> respond(old(trace), CreateNewSlide(uuid(old(issued)), presentationId, ProductType, ContentSlideOrder, 0)).Replied?
      ensures slideId.Some? ==> slideId.value == uuid(old(issued))
    {
      var id := NewId();
      var reply := Post(CreateNewSlide(id, presentationId, ProductType, ContentSlideOrder, 0));
      if reply.Failed? {
        return None;
      }
      return Some(id);
    }

    /**
     * `createPresentation`: sends the requests of `PresentationRun`, succeeds
     * exactly when the whole plan was sent and every request answered, and then
     * returns the presentation id the client drew; any failure becomes one
     * error message.
     */
    method CreatePresentation(content: ScrapedContent) returns (r: Result<string, string>)
      modifies this
      ensures trace == old(trace) + PresentationRun(respond, uuid, old(trace), old(issued), content)
      ensures issued == old(issued) + IdsDrawn(Steps(PresentationRun(respond, uuid, old(trace), old(issued), content)))
      ensures r.Ok? <==>
        var run := PresentationRun(respond, uuid, old(trace), old(issued), content);
        Steps(run) == Plan(|content.mainPoints| > 0) && AllReplied(respond, old(trace), run)
      ensures r.Ok? ==> r.value == uuid(old(issued))
      ensures r.Err? ==> r.error == CreateFailed
    {
      ghost var h0, n := trace, issued;
      ghost var create := CreateCall(uuid, n, content);
      var presentationId := NewId();
      var createReply := Post(CreateNewPresentation(presentationId, TitlePrefix + content.title, true, 0, ThemeId));
      assert trace == h0 + [create] && createReply == respond(h0, create);
      if createReply.Failed? || createReply.firstSlideId == "" {
        RunStopsAtCreate(respond, uuid, h0, n, content);
        return Err(CreateFailed);
      }
      var titleVariant := CreateTitleSlideVariant(createReply.firstSlideId, content);
      ghost var title := TitleRun(respond, uuid, h0, n, content);
      assert trace == h0 + [create] + title && issued == n + 3;
      assert titleVariant.Some? <==> TitleDone(respond, uuid, h0, n, content);
      if titleVariant.None? || |content.mainPoints| == 0 {
        RunStopsAtTitle(respond, uuid, h0, n, content);
        if titleVariant.None? {
          return Err(CreateFailed);
        }
        return Ok(presentationId);
      }
      var added := AddContentSlide(presentationId, content);
      ghost var tail := ContentRun(respond, uuid, h0 + [create] + title, uuid(n), n + 3, content);
      assert trace == h0 + [create] + title + tail && issued == n + 3 + IdsDrawn(Steps(tail));
      assert added <==> |tail| == 3 && AllReplied(respond, h0 + [create] + title, tail);
      RunAddsContent(respond, uuid, h0, n, content);
      if !added {
        return Err(CreateFailed);
      }
      return Ok(presentationId);
    }

    /**
     * The `mainPoints.length > 0` block of `createPresentation`: a new slide,
     * then its variant with the bullet list; `false` as soon as a request
     * throws.
     */
    method AddContentSlide(presentationId: string, content: ScrapedContent) returns (added: bool)
      modifies this
      ensures trace == old(trace) + ContentRun(respond, uuid, old(trace), presentationId, old(issued), content)
      ensures issued == old(issued) + IdsDrawn(Steps(ContentRun(respond, uuid, old(trace), presentationId, old(issued), content)))
      ensures added <==>
        var run := ContentRun(respond, uuid, old(trace), presentationId, old(issued), content);
        |run| == 3 && AllReplied(respond, old(trace), run)
    {
      ContentRunShape(respond, uuid, trace, presentationId, issued, content);
      var contentSlideId := CreateAdditionalSlide(presentationId);
      if contentSlideId.None? {
        return false;
      }
      var contentVariant := CreateContentSlideVariant(contentSlideId.value, content);
      return contentVariant.Some?;
    }

    /** `getShareableLink`: asks for a public share of the presentation and turns the reply into a view link. */
    method GetShareableLink(presentationId: string) returns (r: Result<string, string>)
      modifies this
      ensures trace == old(trace) + [UpsertPresentationShare(presentationId, true)] && issued == old(issued)
      ensures respond(old(trace), UpsertPresentationShare(presentationId, true)).Failed? ==> r == Err(ShareFailed)
      ensures respond(old(trace), UpsertPresentationShare(presentationId, true)).Replied? ==>
        r == Ok(ViewLink(respond(old(trace), UpsertPresentationShare(presentationId, true)).body))
    {
      var shareReply := Post(UpsertPresentationShare(presentationId, true));
      if shareReply.Failed? {
        return Err(ShareFailed);
      }
      return Ok(ViewLink(shareReply.body));
    }
  }

  // ---------------------------------------------------------------------------
  // Runs of requests

  /** One identifier-drawing step alone. */
  lemma IdsDrawnOne(s: Step)
    ensures IdsDrawn([s]) == IdsFor(s)
  {
    assert [s][..0] == [];
  }

  /** Identifiers drawn and endpoints add up over consecutive runs. */
  lemma {:induction false} RunsAppend(a: seq<Call>, b: seq<Call>)
    ensures Steps(a + b) == Steps(a) + Steps(b)
    ensures IdsDrawn(Steps(a + b)) == IdsDrawn(Steps(a)) + IdsDrawn(Steps(b))
    decreases |b|
  {
    assert Steps(a + b) == Steps(a) + Steps(b);
    if b != [] {
      var init := b[..|b| - 1];
      RunsAppend(a, init);
      assert (a + b)[..|a + b| - 1] == a + init;
      assert Steps(a + b)[..|a + b| - 1] == Steps(a + init);
      assert Steps(b)[..|b| - 1] == Steps(init);
    } else {
      assert a + b == a;
    }
  }

  /** Whether every request was answered, over consecutive runs. */
  lemma RepliedAppend(respond: Responder, history: seq<Call>, a: seq<Call>, b: seq<Call>)
    ensures AllReplied(respond, history, a + b) <==> AllReplied(respond, history, a) && AllReplied(respond, history + a, b)
    ensures forall k | 0 <= k < |a| :: ReplyTo(respond, history, a + b, k) == ReplyTo(respond, history, a, k)
    ensures forall k | 0 <= k < |b| :: ReplyTo(respond, history, a + b, |a| + k) == ReplyTo(respond, history + a, b, k)
  {
    forall k | 0 <= k < |a|
      ensures ReplyTo(respond, history, a + b, k) == ReplyTo(respond, history, a, k)
    {
      assert (a + b)[..k] == a[..k];
    }
    forall k | 0 <= k < |b|
      ensures ReplyTo(respond, history, a + b, |a| + k) == ReplyTo(respond, history + a, b, k)
    {
      assert history + (a + b)[..|a| + k] == (history + a) + b[..k];
    }
    if AllReplied(respond, history, a) && AllReplied(respond, history + a, b) {
      forall k | 0 <= k < |a + b|
        ensures ReplyTo(respond, history, a + b, k).Replied?
      {
        if k >= |a| {
          assert ReplyTo(respond, history, a + b, |a| + (k - |a|)) == ReplyTo(respond, history + a, b, k - |a|);
        }
      }
    }
    if AllReplied(respond, history, a + b) {
      forall k | 0 <= k < |b|
        ensures ReplyTo(respond, history + a, b, k).Replied?
      {
        assert ReplyTo(respond, history, a + b, |a| + k).Replied?;
      }
    }
  }

  /**
   * Appending the requests of a step to a run: what the run was is unchanged,
   * and the step's first request is not an activation.
   */
  lemma RunStep(respond: Responder, history: seq<Call>, a: seq<Call>, b: seq<Call>)
    ensures Steps(a + b) == Steps(a) + Steps(b)
    ensures IdsDrawn(Steps(a + b)) == IdsDrawn(Steps(a)) + IdsDrawn(Steps(b))
    ensures AllReplied(respond, history, a + b) <==> AllReplied(respond, history, a) && AllReplied(respond, history + a, b)
  {
    RunsAppend(a, b);
    RepliedAppend(respond, history, a, b);
  }

  /** The activation of a variant step activates the id returned for the variant, on the same slide. */
  lemma VariantRunActivates(respond: Responder, history: seq<Call>, slideId: string, headingId: string, bodyId: string, heading: string, body: string)
    ensures ActivationsFollowVariants(respond, history, VariantRun(respond, history, slideId, headingId, bodyId, heading, body))
  {
    var run := VariantRun(respond, history, slideId, headingId, bodyId, heading, body);
    assert run[..0] == [] && history + [] == history;
  }

  /**
   * A variant step: the variant request with the two drawn ids, then the
   * activation exactly when the service answered it, which activates the
   * returned id on the same slide.
   */
  lemma VariantRunShape(respond: Responder, history: seq<Call>, slideId: string, headingId: string, bodyId: string, heading: string, body: string)
    ensures var run := VariantRun(respond, history, slideId, headingId, bodyId, heading, body);
      && 1 <= |run| <= 2
      && run[0] == CreateSlideVariant(slideId, TitleAndBody(headingId, bodyId, heading, body))
      && (|run| == 2 <==> respond(history, run[0]).Replied?)
      && Steps(run) <= [Variant, Activate]
      && IdsDrawn(Steps(run)) == 2
  {
    var run := VariantRun(respond, history, slideId, headingId, bodyId, heading, body);
    assert run[..0] == [] && history + [] == history;
    IdsDrawnOne(Variant);
    if |run| == 2 {
      assert Steps(run)[..1] == [Variant];
    }
  }

  /** When the creation fails or gives no first slide, nothing else is sent. */
  lemma RunStopsAtCreate(respond: Responder, uuid: nat -> string, history: seq<Call>, n: nat, content: ScrapedContent)
    requires NoFirstSlide(respond(history, CreateCall(uuid, n, content)))
    ensures var run := PresentationRun(respond, uuid, history, n, content);
      && run == [CreateCall(uuid, n, content)]
      && history + run == history + [CreateCall(uuid, n, content)]
      && IdsDrawn(Steps(run)) == 1
      && Steps(run) != Plan(|content.mainPoints| > 0)
  {
    IdsDrawnOne(Create);
  }

  /** When the title variant fails, or there are no main points, the run ends with the title variant. */
  lemma RunStopsAtTitle(respond: Responder, uuid: nat -> string, history: seq<Call>, n: nat, content: ScrapedContent)
    requires !NoFirstSlide(respond(history, CreateCall(uuid, n, content)))
    requires !TitleDone(respond, uuid, history, n, content) || |content.mainPoints| == 0
    ensures var run := PresentationRun(respond, uuid, history, n, content);
      && run == [CreateCall(uuid, n, content)] + TitleRun(respond, uuid, history, n, content)
      && history + run == history + [CreateCall(uuid, n, content)] + TitleRun(respond, uuid, history, n, content)
      && IdsDrawn(Steps(run)) == 3
      && (Steps(run) == Plan(|content.mainPoints| > 0) && AllReplied(respond, history, run)
          <==> TitleDone(respond, uuid, history, n, content) && |content.mainPoints| == 0)
  {
    var create := CreateCall(uuid, n, content);
    var title := TitleRun(respond, uuid, history, n, content);
    VariantRunShape(respond, history + [create], FirstSlideId(respond(history, create)), uuid(n + 1), uuid(n + 2), content.title, content.description);
    IdsDrawnOne(Create);
    RunStep(respond, history, [create], title);
    assert [create][..0] == [] && history + [] == history;
    if |title| == 2 {
      assert Steps([create] + title) == [Create, Variant, Activate];
    }
  }

  /**
   * The content-slide block: the new-slide request, then the variant step
   * exactly when the service answered it; it draws three identifiers when
   * the slide is created and one otherwise, and completes when the variant
   * step does.
   */
  lemma ContentRunShape(respond: Responder, uuid: nat -> string, history: seq<Call>, presentationId: string, m: nat, content: ScrapedContent)
    ensures var run := ContentRun(respond, uuid, history, presentationId, m, content);
      var newSlide := CreateNewSlide(uuid(m), presentationId, ProductType, ContentSlideOrder, 0);
      var body := VariantRun(respond, history + [newSlide], uuid(m), uuid(m + 1), uuid(m + 2), content.title, BulletList(content.mainPoints));
      && run[..1] == [newSlide]
      && 1 <= |run| <= 3 && Steps(run) <= [NewSlide, Variant, Activate]
      && (respond(history, newSlide).Failed? ==> run == [newSlide] && IdsDrawn(Steps(run)) == 1)
      && (respond(history, newSlide).Replied? ==>
            && run == [newSlide] + body
            && history + run == history + [newSlide] + body
            && IdsDrawn(Steps(run)) == 3
            && (|run| == 3 && AllReplied(respond, history, run) <==> |body| == 2 && AllReplied(respond, history + [newSlide], body)))
  {
    var newSlide := CreateNewSlide(uuid(m), presentationId, ProductType, ContentSlideOrder, 0);
    IdsDrawnOne(NewSlide);
    if respond(history, newSlide).Replied? {
      var body := VariantRun(respond, history + [newSlide], uuid(m), uuid(m + 1), uuid(m + 2), content.title, BulletList(content.mainPoints));
      VariantRunShape(respond, history + [newSlide], uuid(m), uuid(m + 1), uuid(m + 2), content.title, BulletList(content.mainPoints));
      RunStep(respond, history, [newSlide], body);
      assert [newSlide][..0] == [] && history + [] == history;
      assert Steps([newSlide]) == [NewSlide];
    }
  }

  /**
   * A creation, a completed title step and a content block in a row: the
   * identifiers add up, and the run follows the full plan with every request
   * answered exactly when the content block completes.
   */
  lemma FullRunReplied(respond: Responder, history: seq<Call>, create: Call, title: seq<Call>, tail: seq<Call>)
    requires StepOf(create) == Create
    requires respond(history, create).Replied?
    requires |title| == 2 && Steps(title) <= [Variant, Activate] && IdsDrawn(Steps(title)) == 2
    requires AllReplied(respond, history + [create], title)
    requires 1 <= |tail| <= 3 && Steps(tail) <= [NewSlide, Variant, Activate]
    ensures var run := [create] + title + tail;
      && IdsDrawn(Steps(run)) == 3 + IdsDrawn(Steps(tail))
      && (Steps(run) == Plan(true) && AllReplied(respond, history, run)
          <==> |tail| == 3 && AllReplied(respond, history + [create] + title, tail))
  {
    IdsDrawnOne(Create);
    RunStep(respond, history, [create], title);
    RunStep(respond, history, [create] + title, tail);
    assert [create][..0] == [] && history + [] == history;
    assert history + ([create] + title) == history + [create] + title;
    assert Steps([create]) == [Create] && Steps(title) == [Variant, Activate];
    if |tail| == 3 {
      assert Steps(tail) == [NewSlide, Variant, Activate];
      assert Steps([create] + title + tail) == Plan(true);
    }
  }

  /** With main points and a completed title step, the run ends with the content block; it succeeds when that block does. */
  lemma RunAddsContent(respond: Responder, uuid: nat -> string, history: seq<Call>, n: nat, content: ScrapedContent)
    requires !NoFirstSlide(respond(history, CreateCall(uuid, n, content)))
    requires TitleDone(respond, uuid, history, n, content) && |content.mainPoints| > 0
    ensures var run := PresentationRun(respond, uuid, history, n, content);
      var create := CreateCall(uuid, n, content);
      var title := TitleRun(respond, uuid, history, n, content);
      var tail := ContentRun(respond, uuid, history + [create] + title, uuid(n), n + 3, content);
      && run == [create] + title + tail
      && history + run == history + [create] + title + tail
      && IdsDrawn(Steps(run)) == 3 + IdsDrawn(Steps(tail))
      && (Steps(run) == Plan(true) && AllReplied(respond, history, run)
          <==> |tail| == 3 && AllReplied(respond, history + [create] + title, tail))
  {
    var create := CreateCall(uuid, n, content);
    var title := TitleRun(respond, uuid, history, n, content);
    var tail := ContentRun(respond, uuid, history + [create] + title, uuid(n), n + 3, content);
    VariantRunShape(respond, history + [create], FirstSlideId(respond(history, create)), uuid(n + 1), uuid(n + 2), content.title, content.description);
    ContentRunShape(respond, uuid, history + [create] + title, uuid(n), n + 3, content);
    FullRunReplied(respond, history, create, title, tail);
  }

  // ---------------------------------------------------------------------------
  // What every run of `createPresentation` satisfies

  /**
   * The requests go out in the order of the plan and stop early only after
   * a failure; the second slide is created only when there are main points.
   */
  lemma RunFollowsPlan(respond: Responder, uuid: nat -> string, history: seq<Call>, n: nat, content: ScrapedContent)
    ensures var run := PresentationRun(respond, uuid, history, n, content);
      && Steps(run) <= Plan(|content.mainPoints| > 0)
      && (NewSlide in Steps(run) ==> |content.mainPoints| > 0)
  {
    var create := CreateCall(uuid, n, content);
    var run := PresentationRun(respond, uuid, history, n, content);
    if NoFirstSlide(respond(history, create)) {
      RunStopsAtCreate(respond, uuid, history, n, content);
      PlanOrder(create, [], [], |content.mainPoints| > 0);
      assert run == [create] + [] + [];
    } else {
      var title := TitleRun(respond, uuid, history, n, content);
      VariantRunShape(respond, history + [create], FirstSlideId(respond(history, create)), uuid(n + 1), uuid(n + 2), content.title, content.description);
      if !TitleDone(respond, uuid, history, n, content) || |content.mainPoints| == 0 {
        RunStopsAtTitle(respond, uuid, history, n, content);
        PlanOrder(create, title, [], |content.mainPoints| > 0);
        assert run == [create] + title + [];
      } else {
        var tail := ContentRun(respond, uuid, history + [create] + title, uuid(n), n + 3, content);
        RunAddsContent(respond, uuid, history, n, content);
        ContentRunShape(respond, uuid, history + [create] + title, uuid(n), n + 3, content);
        PlanOrder(create, title, tail, true);
      }
    }
  }

  /** A creation, part of a variant step and part of a content block are in the order of the plan. */
  lemma PlanOrder(create: Call, title: seq<Call>, tail: seq<Call>, hasPoints: bool)
    requires StepOf(create) == Create
    requires Steps(title) <= [Variant, Activate] && Steps(tail) <= [NewSlide, Variant, Activate]
    requires tail != [] ==> |title| == 2 && hasPoints
    ensures Steps([create] + title + tail) <= Plan(hasPoints)
    ensures NewSlide in Steps([create] + title + tail) ==> hasPoints
  {
    RunsAppend([create], title);
    RunsAppend([create] + title, tail);
    assert Steps([create]) == [Create];
    var steps := Steps([create] + title + tail);
    if NewSlide in steps {
      var k :| 0 <= k < |steps| && steps[k] == NewSlide;
      assert k >= 1 + |title|;
    }
  }

  /**
   * The first request creates the presentation with the drawn id and the
   * prefixed title; it is the only request exactly when the service gives
   * no first slide, so no variant is sent then.
   */
  lemma RunStartsWithCreation(respond: Responder, uuid: nat -> string, history: seq<Call>, n: nat, content: ScrapedContent)
    ensures var run := PresentationRun(respond, uuid, history, n, content);
      && run != []
      && run[0] == CreateNewPresentation(uuid(n), TitlePrefix + content.title, true, 0, ThemeId)
      && (|run| == 1 <==> NoFirstSlide(respond(history, run[0])))
  {
    var create := CreateCall(uuid, n, content);
    if !NoFirstSlide(respond(history, create)) {
      VariantRunShape(respond, history + [create], FirstSlideId(respond(history, create)), uuid(n + 1), uuid(n + 2), content.title, content.description);
    }
  }

  /**
   * The slides and payloads: the title variant goes to the first slide the
   * service returned and shows the title over the description; the new slide
   * carries the drawn id, the presentation id and order 1; its variant shows
   * the title over the bullet list.
   */
  lemma RunSlideContents(respond: Responder, uuid: nat -> string, history: seq<Call>, n: nat, content: ScrapedContent)
    ensures var run := PresentationRun(respond, uuid, history, n, content);
      && (|run| > 1 ==>
            && respond(history, run[0]).Replied?
            && run[1] == CreateSlideVariant(respond(history, run[0]).firstSlideId, TitleAndBody(uuid(n + 1), uuid(n + 2), content.title, content.description)))
      && (|run| > 3 ==> run[3] == CreateNewSlide(uuid(n + 3), uuid(n), ProductType, ContentSlideOrder, 0))
      && (|run| > 4 ==> run[4] == CreateSlideVariant(uuid(n + 3), TitleAndBody(uuid(n + 4), uuid(n + 5), content.title, BulletList(content.mainPoints))))
  {
    var create := CreateCall(uuid, n, content);
    var run := PresentationRun(respond, uuid, history, n, content);
    if !NoFirstSlide(respond(history, create)) {
      var title := TitleRun(respond, uuid, history, n, content);
      VariantRunShape(respond, history + [create], FirstSlideId(respond(history, create)), uuid(n + 1), uuid(n + 2), content.title, content.description);
      if TitleDone(respond, uuid, history, n, content) && |content.mainPoints| > 0 {
        var tail := ContentRun(respond, uuid, history + [create] + title, uuid(n), n + 3, content);
        RunAddsContent(respond, uuid, history, n, content);
        ContentRunShape(respond, uuid, history + [create] + title, uuid(n), n + 3, content);
        assert run[3] == tail[0];
        if |tail| > 1 {
          var newSlide := CreateNewSlide(uuid(n + 3), uuid(n), ProductType, ContentSlideOrder, 0);
          VariantRunShape(respond, history + [create] + title + [newSlide], uuid(n + 3), uuid(n + 4), uuid(n + 5), content.title, BulletList(content.mainPoints));
          assert run[4] == tail[1];
        }
      } else {
        RunStopsAtTitle(respond, uuid, history, n, content);
      }
    }
  }

  /**
   * With distinct drawn identifiers, every variant the run submits is a
   * `TITLE_AND_BODY_LAYOUT` grid of two stacked text boxes: the heading on
   * top, unanchored, and the body anchored below it.
   */
  lemma RunVariantsStacked(respond: Responder, uuid: nat -> string, history: seq<Call>, n: nat, content: ScrapedContent)
    requires uuid(n + 1) != uuid(n + 2) && uuid(n + 4) != uuid(n + 5)
    ensures var run := PresentationRun(respond, uuid, history, n, content);
      forall k | 0 <= k < |run| && run[k].CreateSlideVariant? ::
        && run[k].variant.layout == TitleAndBodyLayout
        && |run[k].variant.rows| == 2
        && StackedColumn(run[k].variant)
  {
    var run := PresentationRun(respond, uuid, history, n, content);
    RunFollowsPlan(respond, uuid, history, n, content);
    RunSlideContents(respond, uuid, history, n, content);
    TitleAndBodyShape(uuid(n + 1), uuid(n + 2), content.title, content.description);
    TitleAndBodyShape(uuid(n + 4), uuid(n + 5), content.title, BulletList(content.mainPoints));
    var plan := Plan(|content.mainPoints| > 0);
    forall k | 0 <= k < |run| && run[k].CreateSlideVariant?
      ensures run[k].variant.layout == TitleAndBodyLayout && |run[k].variant.rows| == 2 && StackedColumn(run[k].variant)
    {
      assert Steps(run)[k] == Variant == plan[k];
      assert k == 1 || k == 4;
    }
  }

  /** Activations after one run of requests and then another that does not begin with an activation. */
  lemma ActivationsAppend(respond: Responder, history: seq<Call>, a: seq<Call>, b: seq<Call>)
    requires ActivationsFollowVariants(respond, history, a)
    requires ActivationsFollowVariants(respond, history + a, b)
    requires b == [] || !b[0].SetActiveVariant?
    ensures ActivationsFollowVariants(respond, history, a + b)
  {
    RepliedAppend(respond, history, a, b);
    forall k | 0 <= k < |a + b| && (a + b)[k].SetActiveVariant?
      ensures k > 0 && (a + b)[k - 1].CreateSlideVariant? && (a + b)[k].slideId == (a + b)[k - 1].slideId
      ensures ReplyTo(respond, history, a + b, k - 1).Replied?
      ensures (a + b)[k].variantId == ReplyTo(respond, history, a + b, k - 1).id
    {
      if k >= |a| {
        var j := k - |a|;
        assert b[j].SetActiveVariant?;
        assert ReplyTo(respond, history, a + b, |a| + (j - 1)) == ReplyTo(respond, history + a, b, j - 1);
      }
    }
  }

  /** In the content block, the activation follows its variant. */
  lemma ContentRunActivates(respond: Responder, uuid: nat -> string, history: seq<Call>, presentationId: string, m: nat, content: ScrapedContent)
    ensures ActivationsFollowVariants(respond, history, ContentRun(respond, uuid, history, presentationId, m, content))
  {
    var newSlide := CreateNewSlide(uuid(m), presentationId, ProductType, ContentSlideOrder, 0);
    if respond(history, newSlide).Replied? {
      var body := VariantRun(respond, history + [newSlide], uuid(m), uuid(m + 1), uuid(m + 2), content.title, BulletList(content.mainPoints));
      VariantRunActivates(respond, history + [newSlide], uuid(m), uuid(m + 1), uuid(m + 2), content.title, BulletList(content.mainPoints));
      VariantRunShape(respond, history + [newSlide], uuid(m), uuid(m + 1), uuid(m + 2), content.title, BulletList(content.mainPoints));
      ActivationsAppend(respond, history, [newSlide], body);
    }
  }

  /**
   * Every activation in a run of `createPresentation` comes right after the
   * variant request for the same slide, and activates the id the service
   * returned for that variant.
   */
  lemma RunActivations(respond: Responder, uuid: nat -> string, history: seq<Call>, n: nat, content: ScrapedContent)
    ensures ActivationsFollowVariants(respond, history, PresentationRun(respond, uuid, history, n, content))
  {
    var create := CreateCall(uuid, n, content);
    var run := PresentationRun(respond, uuid, history, n, content);
    if NoFirstSlide(respond(history, create)) {
      RunStopsAtCreate(respond, uuid, history, n, content);
    } else {
      var title := TitleRun(respond, uuid, history, n, content);
      var slide := FirstSlideId(respond(history, create));
      VariantRunShape(respond, history + [create], slide, uuid(n + 1), uuid(n + 2), content.title, content.description);
      VariantRunActivates(respond, history + [create], slide, uuid(n + 1), uuid(n + 2), content.title, content.description);
      if TitleDone(respond, uuid, history, n, content) && |content.mainPoints| > 0 {
        var tail := ContentRun(respond, uuid, history + [create] + title, uuid(n), n + 3, content);
        RunAddsContent(respond, uuid, history, n, content);
        ContentRunShape(respond, uuid, history + [create] + title, uuid(n), n + 3, content);
        ContentRunActivates(respond, uuid, history + [create] + title, uuid(n), n + 3, content);
        ActivationsAfterCreation(respond, history, create, title, tail);
      } else {
        RunStopsAtTitle(respond, uuid, history, n, content);
        ActivationsAfterCreation(respond, history, create, title, []);
        assert run == [create] + title + [];
      }
    }
  }

  /** Activations in a creation followed by a variant step and a run that does not begin with an activation. */
  lemma ActivationsAfterCreation(respond: Responder, history: seq<Call>, create: Call, title: seq<Call>, tail: seq<Call>)
    requires !create.SetActiveVariant?
    requires title != [] && !title[0].SetActiveVariant?
    requires ActivationsFollowVariants(respond, history + [create], title)
    requires tail == [] || !tail[0].SetActiveVariant?
    requires ActivationsFollowVariants(respond, history + [create] + title, tail)
    ensures ActivationsFollowVariants(respond, history, [create] + title + tail)
  {
    assert ActivationsFollowVariants(respond, history, [create]);
    ActivationsAppend(respond, history, [create], title);
    assert history + ([create] + title) == history + [create] + title;
    ActivationsAppend(respond, history, [create] + title, tail);
  }

  /** The view link of a shared presentation: the fixed prefix, then the service's answer, which it gives back. */
  function ViewLink(body: string): (link: string)
    ensures ViewPrefix <= link
    ensures link[|ViewPrefix|..] == body
  {
    ViewPrefix + body
  }

  /** Different answers give different links. */
  lemma ViewLinkInjective(body1: string, body2: string)
    requires ViewLink(body1) == ViewLink(body2)
    ensures body1 == body2
  {
    assert body1 == ViewLink(body1)[|ViewPrefix|..];
  }
}

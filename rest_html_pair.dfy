/** The live reStructuredText-to-HTML preview: the `ReSTHTMLPair` document model.

    Every change of `rest` or `useSphinx` asks for a render. At most one render is out with the
    worker at a time: a change that arrives while one is out only sets `queued`, and when that
    render completes its result is thrown away and the then-current inputs are sent instead.
    A completion with nothing queued publishes `html` and `warnings`.

    The two renderers (docutils and Sphinx) are opaque: they are given to the constructor as
    functions from the ReST text to a `RenderResult`. A submission to the worker pool is
    recorded in the ghost sequence `submitted`, and its completion is the event `Complete`,
    which carries the renderer's result for the request last submitted. Each event runs
    atomically here; the pool actually runs the callback on its own result-handler thread, so
    the invariant below holds of this serialised model, not of every interleaving the pool
    permits. */
module RestEditorModel {
  import opened Warnings

  /** What one submission asks the worker to render. */
  datatype Request = Request(rest: string, useSphinx: bool)

  /** The `(ok, message)` pair returned by `validate`. */
  datatype Verdict = Verdict(ok: bool, message: string)

  /** The message `validate` gives when there are warnings (the two string literals of the
      source are joined without a space). */
  const ImproperlyComposed: string :=
    "The reStructured Text is improperly composed." + "Are you sure you want to save it?"

  class ReSTHTMLPair {
    var rest: string
    var html: string
    var warnings: seq<DocUtilsWarning>
    var useSphinx: bool
    /** The path of the ReST file (the `filepath` of the save machinery). */
    var filepath: string
    var dirty: bool
    var processing: bool
    var queued: bool

    const docutilsToHtml: string -> RenderResult
    const sphinxToHtml: string -> RenderResult

    /** Every request handed to the worker, oldest first. */
    ghost var submitted: seq<Request>
    /** How many completions have been processed. */
    ghost var completions: nat
    /** How many times a change asked for a render (the constructor's own call included). */
    ghost var renderRequests: nat

    /** The renderer `useSphinx` selects, applied to the request's text. */
    function Render(req: Request): (r: RenderResult)
    {
      if req.useSphinx then sphinxToHtml(req.rest) else docutilsToHtml(req.rest)
    }

    /** The inputs a render would be asked for now. */
    function Current(): (req: Request)
      reads this
    {
      Request(rest, useSphinx)
    }

    /** The request the worker is rendering (meaningful while `processing`). */
    ghost function InFlight(): Request
      reads this
      requires |submitted| > 0
    {
      submitted[|submitted| - 1]
    }

    /** The part of the invariant that holds even between an input change and the render
        request it triggers. */
    ghost predicate Scheduling()
      reads this
    {
      // queued implies processing
      (queued ==> processing) &&
      // at most one render is out, and one is out exactly while processing
      |submitted| == completions + (if processing then 1 else 0) &&
      // every submission was paid for by a request for a render; a queued one is owed one more
      |submitted| + (if queued then 1 else 0) <= renderRequests &&
      (renderRequests > 0 ==> |submitted| > 0)
    }

    ghost predicate Valid()
      reads this
    {
      Scheduling() &&
      // latest wins: with nothing queued, the render out is of the current inputs
      (processing && !queued ==> InFlight() == Current()) &&
      // when idle, what is shown is the render of the current inputs
      (!processing && |submitted| > 0 ==>
        html == Render(Current()).html && warnings == Translated(Render(Current()).warningNodes))
    }

    /** `__init__`: the keyword arguments are assigned first (`use_sphinx`, then `rest`, the
        order in which Python 2 iterates the keyword dictionary), each
        firing its change handlers when it differs from the default, and then a render is
        asked for once more. */
    constructor (rest0: string, useSphinx0: bool, filepath0: string,
                 docutils: string -> RenderResult, sphinx: string -> RenderResult)
      ensures Valid()
      ensures rest == rest0 && useSphinx == useSphinx0 && filepath == filepath0
      ensures docutilsToHtml == docutils && sphinxToHtml == sphinx
      ensures html == "" && warnings == []
      ensures dirty == (rest0 != "")
      ensures processing && queued == (rest0 != "" || useSphinx0)
      ensures submitted == [Request(if useSphinx0 then "" else rest0, useSphinx0)]
      ensures completions == 0
      ensures renderRequests == 1 + (if rest0 != "" then 1 else 0) + (if useSphinx0 then 1 else 0)
    {
      rest, html, warnings, useSphinx, filepath := "", "", [], false, filepath0;
      dirty, processing, queued := false, false, false;
      docutilsToHtml, sphinxToHtml := docutils, sphinx;
      submitted, completions, renderRequests := [], 0, 0;
      new;
      SetUseSphinx(useSphinx0);
      SetRest(rest0);
      QueueHtml();
    }

    /** `_queue_html`: start a render when idle, otherwise only remember that one is owed.
        It runs right after `rest` or `use_sphinx` changed, so only `Scheduling()` is assumed. */
    method QueueHtml()
      requires Scheduling()
      modifies this
      ensures Valid()
      ensures rest == old(rest) && useSphinx == old(useSphinx) && filepath == old(filepath)
      ensures html == old(html) && warnings == old(warnings) && dirty == old(dirty)
      ensures completions == old(completions) && renderRequests == old(renderRequests) + 1
      ensures processing
      ensures old(processing) ==> queued && submitted == old(submitted)
      ensures !old(processing) ==> !queued && submitted == old(submitted) + [Current()]
    {
      renderRequests := renderRequests + 1;
      if processing {
        queued := true;
      } else {
        processing := true;
        GenHtml();
      }
    }

    /** `_gen_html`: hand the current inputs to the worker. */
    method GenHtml()
      modifies this`submitted
      ensures submitted == old(submitted) + [Current()]
    {
      submitted := submitted + [Request(rest, useSphinx)];
    }

    /** Assigning `rest`. Traits notifies only when the value changes; a change marks the
        document dirty and asks for a render. */
    method SetRest(s: string)
      requires Valid()
      modifies this
      ensures Valid()
      ensures rest == s && useSphinx == old(useSphinx) && filepath == old(filepath)
      ensures html == old(html) && warnings == old(warnings) && completions == old(completions)
      ensures dirty == (old(dirty) || s != old(rest))
      ensures s == old(rest) ==>
        processing == old(processing) && queued == old(queued) &&
        submitted == old(submitted) && renderRequests == old(renderRequests)
      ensures s != old(rest) ==> processing && renderRequests == old(renderRequests) + 1
      ensures s != old(rest) && old(processing) ==> queued && submitted == old(submitted)
      ensures s != old(rest) && !old(processing) ==>
        !queued && submitted == old(submitted) + [Request(s, useSphinx)]
    {
      if s != rest {
        rest := s;
        dirty := true;
        QueueHtml();
      }
    }

    /** Assigning `use_sphinx`. A change asks for a render but leaves `dirty` alone. */
    method SetUseSphinx(b: bool)
      requires Valid()
      modifies this
      ensures Valid()
      ensures useSphinx == b && rest == old(rest) && filepath == old(filepath)
      ensures html == old(html) && warnings == old(warnings) && completions == old(completions)
      ensures dirty == old(dirty)
      ensures b == old(useSphinx) ==>
        processing == old(processing) && queued == old(queued) &&
        submitted == old(submitted) && renderRequests == old(renderRequests)
      ensures b != old(useSphinx) ==> processing && renderRequests == old(renderRequests) + 1
      ensures b != old(useSphinx) && old(processing) ==> queued && submitted == old(submitted)
      ensures b != old(useSphinx) && !old(processing) ==>
        !queued && submitted == old(submitted) + [Request(rest, b)]
    {
      if b != useSphinx {
        useSphinx := b;
        QueueHtml();
      }
    }

    /** `_set_html`: the worker's callback. It is only ever called for the render that is out,
        with that render's result. A stale result is dropped and the current inputs are sent;
        otherwise the result is published and the model goes idle. */
    method Complete(result: RenderResult)
      requires Valid()
      requires processing
      requires result == Render(InFlight())
      modifies this
      ensures Valid()
      ensures rest == old(rest) && useSphinx == old(useSphinx) && filepath == old(filepath)
      ensures dirty == old(dirty) && renderRequests == old(renderRequests)
      ensures completions == old(completions) + 1
      ensures !queued
      ensures old(queued) ==>
        processing && html == old(html) && warnings == old(warnings) &&
        submitted == old(submitted) + [Current()]
      ensures !old(queued) ==>
        !processing && submitted == old(submitted) &&
        html == result.html && warnings == Translated(result.warningNodes) &&
        result == Render(Current())
    {
      if queued {
        GenHtml();
        queued := false;
      } else {
        html := result.html;
        var ws := CollectWarnings(result.warningNodes);
        warnings := ws;
        processing := false;
      }
      completions := completions + 1;
    }

    /** `validate`: advise against saving while the last published render has warnings. */
    function Validate(): (v: Verdict)
      reads this
      ensures v.ok <==> |warnings| == 0
      ensures v.ok ==> v.message == ""
      ensures !v.ok ==> v.message != ""
    {
      if |warnings| != 0 then Verdict(false, ImproperlyComposed) else Verdict(true, "")
    }

    /** The effect of `save` on the model: the document is clean again. */
    method Save()
      modifies this`dirty
      ensures !dirty
    {
      dirty := false;
    }
  }

  /** The scheduler's guarantees, read off the invariant: a queued render implies one is
      running, at most one render is out, the number of renders never exceeds the number of
      requests for one, and with nothing queued the running render is of the current inputs. */
  lemma SchedulerGuarantees(p: ReSTHTMLPair)
    requires p.Valid()
    ensures p.queued ==> p.processing
    ensures |p.submitted| - p.completions == (if p.processing then 1 else 0)
    ensures |p.submitted| <= p.renderRequests
    ensures p.processing && !p.queued ==> p.InFlight() == p.Current()
  {
  }

  /** When the model is idle, `validate` objects exactly when the renderer reported warnings
      for the current text and mode. */
  lemma ValidateReflectsRenderer(p: ReSTHTMLPair)
    requires p.Valid() && !p.processing && |p.submitted| > 0
    ensures p.Validate().ok <==> p.Render(p.Current()).warningNodes == []
  {
  }

  /** Two edits in quick succession after an empty document was opened: the render of the
      first edit is never asked for, the render running when they arrive is thrown away, and the
      second edit's render is the one shown. */
  method TwoQuickEdits(docutils: string -> RenderResult, sphinx: string -> RenderResult)
    returns (shown: string, ghost renders: seq<Request>)
    ensures shown == docutils("b").html
    ensures renders == [Request("", false), Request("b", false)]
  {
    var p := new ReSTHTMLPair("", false, "doc.rst", docutils, sphinx);
    p.SetRest("a");
    p.SetRest("b");
    p.Complete(docutils(""));
    p.Complete(docutils("b"));
    shown, renders := p.html, p.submitted;
  }

  /** Opening a document with non-empty text renders it twice: assigning `rest` during
      construction already starts a render, and the constructor's own request for one then
      finds it busy and queues a second, identical one. */
  method OpenWithText(docutils: string -> RenderResult, sphinx: string -> RenderResult)
    returns (shown: string, dirty: bool, ghost renders: seq<Request>)
    ensures shown == docutils("hello").html
    ensures renders == [Request("hello", false), Request("hello", false)]
    ensures dirty
  {
    var p := new ReSTHTMLPair("hello", false, "hello.rst", docutils, sphinx);
    p.Complete(docutils("hello"));
    p.Complete(docutils("hello"));
    shown, dirty, renders := p.html, p.dirty, p.submitted;
  }
}

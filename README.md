# ReSTHTMLPair: the live reStructuredText preview model

This project models `ReSTHTMLPair` from `enthought/rst/rest_editor_model.py`. The class holds
reStructuredText (`rest`) and its HTML preview (`html`, `warnings`). It re-renders the preview
on a one-process worker pool whenever `rest` or `use_sphinx` changes, and it never has more than
one render outstanding. Edits that arrive during a render are coalesced into one later render.

- `warnings.dfy` (module `Warnings`) defines the renderer's result. This is the HTML plus the
  `system_message` nodes, where a node is reduced to its `level`, its `line` and the text of its
  first paragraph. The module also translates those nodes into `DocUtilsWarning` records.
- `html_path.dfy` (module `HtmlPaths`) models Python's `str.rfind` and the `html_filepath`
  property.
- `rest_html_pair.dfy` (module `RestEditorModel`) defines the class `ReSTHTMLPair`. Its fields
  are the source's traits: `rest`, `html`, `warnings`, `useSphinx`, `filepath`, `dirty`,
  `processing` and `queued`. Its methods are the events:
  - the constructor;
  - assigning `rest` (`SetRest`);
  - assigning `use_sphinx` (`SetUseSphinx`);
  - the worker's callback (`Complete`);
  - `Save`.

  Three ghost fields record what the pool is asked to do:
  - `submitted` holds every render handed to the worker;
  - `completions` counts the callbacks;
  - `renderRequests` counts the calls of `_queue_html`.

  The invariant `Valid()` covers four guarantees:
  - queued implies processing;
  - exactly one render is out while processing, and none otherwise;
  - renders never outnumber the requests for one;
  - latest wins: with nothing queued, the render that is out is of the current `(rest, useSphinx)`.
    When the model is idle, `html` and `warnings` are the render of the current inputs.

The two renderers (docutils and Sphinx) are opaque. The constructor takes them as functions from
the ReST text to a `RenderResult`. `Complete(result)` requires `result` to be the chosen
renderer's output for the last request submitted, because the pool calls back only for the
render that is out.

Traits notifies a change handler only when the new value differs from the old one. So assigning
`rest` or `use_sphinx` its current value does nothing: `dirty` stays as it is and no render is
asked for.

Behaviour of `rest_editor_model.py` that the model keeps:
- `__init__` (lines 145-148) assigns the keyword arguments before its own `_queue_html()` call,
  and these assignments fire the change handlers. Python 2 iterates the keyword dictionary with
  `use_sphinx` before `rest`, and the model assigns them in that order. So a document opened
  with non-empty text is marked dirty and rendered twice. The first render is thrown away
  because the constructor's own request finds the pool busy (`OpenWithText`).
- A render that raises never reaches `_set_html`, because `_gen_html` (lines 161-163) installs
  no error callback. No warning is produced for it and `processing` stays true.
- Changing `use_sphinx` asks for a render (line 153) but does not set `dirty`; only the `rest`
  handler does (lines 150-151).
- `save` clears `dirty` (line 203) before it writes the files, so `dirty` is false even if a
  write fails.
- `html_filepath` is `HtmlFilepathOf(filepath)`; only `save` reads it.

Each event (an assignment, a completion) is modelled as one atomic step. In the source the pool
runs `_set_html` on its own result-handler thread, so it can interleave with an assignment on the
editor's thread. An edit that sets `_queued` between lines 167 and 168 is then lost, and an edit
that reads `_processing` just before line 178 clears it leaves `_queued` true while idle. The
invariant `Valid()`, and with it queued-implies-processing and latest-wins, holds of the
serialised events, not of those interleavings.

## Model

| member | source | states |
|---|---|---|
| RestEditorModel.ReSTHTMLPair.constructor | enthought/rst/rest_editor_model.py:145-159 | After construction, one render is out: of `("", true)` when `use_sphinx` was given, else of `(rest0, false)`. A second render is queued when `rest` or `use_sphinx` was given a non-default value. `dirty` is set exactly when `rest` was. Nothing is published yet, and the invariant holds. |
| RestEditorModel.ReSTHTMLPair.QueueHtml | enthought/rst/rest_editor_model.py:153-159 | When busy, it only sets `queued` and submits nothing. When idle, it sets `processing` and submits exactly one request, the current `(rest, useSphinx)`. It re-establishes the full invariant from the scheduling part alone. |
| RestEditorModel.ReSTHTMLPair.GenHtml | enthought/rst/rest_editor_model.py:161-163 | The worker receives the current `rest` and the renderer that `useSphinx` selects. |
| RestEditorModel.ReSTHTMLPair.SetRest | enthought/rst/rest_editor_model.py:150-159 | A real change sets `dirty` and asks for a render: a submission when idle, only `queued` when busy. Assigning the same text changes nothing. `html` and `warnings` are untouched. |
| RestEditorModel.ReSTHTMLPair.SetUseSphinx | enthought/rst/rest_editor_model.py:153-159 | A real change asks for a render in the same way but leaves `dirty` unchanged. |
| RestEditorModel.ReSTHTMLPair.Complete | enthought/rst/rest_editor_model.py:165-178 | Stale completion (queued): `html` and `warnings` stay unchanged, exactly one new render of the current inputs is submitted, `queued` is cleared and `processing` stays true. Fresh completion: `html` becomes the result's HTML, `warnings` its translated nodes and `processing` false. The published result is the render of the inputs current at publication time. |
| RestEditorModel.ReSTHTMLPair.Validate | enthought/rst/rest_editor_model.py:191-198 | Returns `ok` false with a non-empty message exactly when `warnings` is non-empty, and `(true, "")` otherwise. |
| RestEditorModel.ReSTHTMLPair.Save | enthought/rst/rest_editor_model.py:200-203 | Saving clears `dirty` and touches nothing else in the model. |
| RestEditorModel.SchedulerGuarantees | enthought/rst/rest_editor_model.py:153-178 | In every reachable state: queued implies processing; at most one render is out, and one is out exactly while processing; submissions never exceed calls of `_queue_html`; with nothing queued, the render out is of the current inputs. |
| RestEditorModel.ValidateReflectsRenderer | enthought/rst/rest_editor_model.py:169-178 | When idle, `validate` objects exactly when the renderer reported warning nodes for the current text and mode. |
| RestEditorModel.TwoQuickEdits | enthought/rst/rest_editor_model.py:153-178 | Two edits ("a", then "b") made during the initial render lead to two renders, of "" and then "b". The first is discarded and the second is shown. No render of "a" is ever asked for. |
| RestEditorModel.OpenWithText | enthought/rst/rest_editor_model.py:145-159 | Opening a document with text "hello" renders it twice and shows the second render. The document starts dirty. |
| Warnings.Translated | enthought/rst/rest_editor_model.py:171-177 | The translation has one warning per node, in the nodes' order. `level` and `line` come from the node's attributes and `description` from its text. |
| Warnings.CollectWarnings | enthought/rst/rest_editor_model.py:171-177 | The append loop builds exactly the translation of the node list. |
| HtmlPaths.RFind | enthought/rst/rest_editor_model.py:182 | Returns -1 exactly when the character does not occur. Otherwise it returns an index holding it with no later occurrence, i.e. the last one. |
| HtmlPaths.EndsWithHtml | enthought/rst/rest_editor_model.py:180-185 | The HTML path always ends in ".html". |
| HtmlPaths.NoDotAppends | enthought/rst/rest_editor_model.py:180-185 | A path with no '.' gets ".html" appended. |
| HtmlPaths.LastDotReplaced | enthought/rst/rest_editor_model.py:180-185 | A path with a '.' keeps the text before its last '.' and gets ".html" appended. |
| HtmlPaths.Idempotent | enthought/rst/rest_editor_model.py:180-185 | Taking the HTML path of an HTML path gives the same path. |

## Left out

- The docutils and Sphinx renderers (`docutils_rest_to_html`, `sphinx_rest_to_html`) are left
  out. They are calls into foreign libraries, with temporary files and a monkeypatched message
  filter. The model takes them as opaque functions of the text.
- The `multiprocessing.Pool` and `apply_async` are left out. Completion is the explicit event
  `Complete`, and every event is atomic. The pool's result-handler thread is not modelled, so
  its interleavings with edits, which can lose an edit or leave `queued` set while idle, are not
  captured.
- A renderer that raises is not modelled. No error callback is installed, so no completion event
  ever arrives and `processing` stays true.
- The node structure is reduced. The source reads the description as
  `node.children[0].children[0].data` and the attributes as `level` and `line`. A node without
  those children or without a `line` attribute would raise inside the callback. The model
  assumes every node has them.
- The file writes of `save` are left out: writing `rest` to `filepath` and, when `save_html` is
  set, `html` to `html_filepath`. `save_html` is left out with them. Only the effect on `dirty` is
  modelled.
- The `CanSaveMixin` save machinery is left out, except for the `filepath` and `dirty` fields.
- `NullIO` is left out: it swallows messages.
- Nothing from `enthought/permissions/default/user_database.py` or `i_user_database.py` is
  modelled. The first only returns constants and opens dialogs; the second only declares an
  interface.
- `Complete` requires that a render is out and that its argument is the render of the last
  submitted request. The pool guarantees both; they are not checks made by the source.

# Kojima farm order labels, modelled in Dafny

The Kojima farm app turns a photo of an order sheet into printable box labels. A
generative model reads the photo and replies with JSON order lines
`{store, item, spec, boxes, remainder}`. `get_order_data` cuts the JSON out of the reply.
`create_b5_pdf` groups the lines by store and prints one B5 page per store. Each page
shows the items with their box counts and a footer with the store's total. A second file
holds a retry wrapper for calls that run out of quota (`generate_with_retries`). It also
holds a fallback that parks the request's images in a `pending/` directory when the
order call fails that way.

The project models these pieces:

- `text.dfy` (module `Text`): the Python string operations the code relies on, with their
  exact semantics. These are `pat in s`, `s.split(sep)` (non-overlapping, leftmost first),
  `s.strip()` (cutting the characters `str.isspace` accepts) and `f"{n}"` for integers.
- `extraction.dfy` (module `OrderExtraction`): the reply handling of `get_order_data`.
  `json.loads` is a parameter `parse` whose `None` stands for a raised exception. A reply
  whose `response.text` cannot be read is `None`.
- `labels.dfy` (module `LabelPages`): the planning half of `create_b5_pdf`. The grouping
  loop over the `defaultdict` is a method over a key order and a map. The page loop and
  the item loop are methods that build page records `(store, rows, total, footer)`. Each
  is proved equal to a reference definition (`LabelPlan`), and the lemmas state what the
  pages contain.
- `retry.dfy` (module `Retry`): `generate_with_retries` as a loop over a callee whose n-th
  invocation returns, raises ResourceExhaustedError, or raises something else.
- `pending.dfy` (module `Pending`): the pending directory as a class whose field maps paths
  to file contents, with `save_image_to_pending` and the save-every-image loop.

Two behaviours of the code are modelled as written.

- **A glued fence keeps backticks.** The reply cut is
  `text.split("```json")[1].split("```")[0]`. The first split also stops at a second
  ```` ```json ```` marker, so this is not always "up to the next fence". If the closing
  fence is followed one or two characters later by another ```` ```json ```` marker (as in
  ```` ````json ````), the payload keeps one or two backticks. `Cut` states the cut
  directly, and `StraddledFenceKeepsBacktick` shows the one-backtick case.
- **The retry guard changes nothing.** The `attempt < max_retries - 1` guard in
  `generate_with_retries` has no effect on the result or on the number of calls.
  `GenerateWithRetries` keeps the guard, while its reference `Retry` has none, and the
  method is proved equal to it.

## Model

| member | source | states |
|---|---|---|
| Text.Find | kojima-farm-app/app.py:38 | `"```json" in text`: the result is the leftmost occurrence, and `None` means there is no occurrence at all |
| Text.Split | kojima-farm-app/app.py:38 | `str.split` yields at least one piece; with no separator it yields the text itself; otherwise there are at least two pieces and the first ends at the first separator |
| Text.SplitJoin | kojima-farm-app/app.py:38 | joining the pieces of a split with the separator gives back the original text |
| Text.SplitPiecesFree | kojima-farm-app/app.py:38 | no piece of a split contains the separator |
| Text.SplitSecond | kojima-farm-app/app.py:38 | piece `[1]` of a split is what follows the first separator, up to the next separator or the end |
| Text.Strip | kojima-farm-app/app.py:39 | `strip()` returns an infix of the text; everything cut from either end is whitespace; the result neither starts nor ends with whitespace |
| Text.StripUnique | kojima-farm-app/app.py:39 | any infix with whitespace-only margins and non-space ends is the strip, so the strip is fully characterised |
| Text.StripIdempotent | kojima-farm-app/app.py:39 | stripping twice gives the same result as stripping once |
| Text.IntStringRoundTrip | kojima-farm-app/app.py:70-71 | the decimal text of `f"{n}"` reads back as `n` for every integer, negative ones included |
| OrderExtraction.GetOrderData | kojima-farm-app/app.py:36-41 | an unreadable reply gives `None`; any value returned is the parser's result on the stripped payload; nothing escapes the `try` |
| OrderExtraction.FencedPayload | kojima-farm-app/app.py:38 | with the first ```` ```json ```` at `i`, the two splits cut out exactly `Cut` of the text after the marker: up to the next fence or the end, keeping backticks glued to a further marker |
| OrderExtraction.UnfencedPayload | kojima-farm-app/app.py:38-39 | without a ```` ```json ```` marker the payload is the whole reply, stripped and otherwise unchanged |
| OrderExtraction.FenceRoundTrip | kojima-farm-app/app.py:38-39 | fencing a backtick-free body after a marker-free preamble and extracting it gives the stripped body, whatever follows the closing fence (unless it starts with a backtick) |
| OrderExtraction.GetOrderDataFenced | kojima-farm-app/app.py:36-41 | a fenced reply yields exactly what the parser makes of the stripped body |
| OrderExtraction.StraddledFenceKeepsBacktick | kojima-farm-app/app.py:38 | a closing fence glued to another marker (```` ````json ````) leaves one backtick at the end of the payload |
| LabelPages.GroupByStore | kojima-farm-app/app.py:45-47 | the grouping loop yields the distinct stores in first-occurrence order as keys, and under each key that store's entries in input order |
| LabelPages.CreateLabelPages | kojima-farm-app/app.py:53-80 | the page loop produces exactly `LabelPlan`: one page per key of the grouping, in key order |
| LabelPages.StoreRows | kojima-farm-app/app.py:65-73 | the item loop produces one row per item with its detail text, and `store_total`, starting from 0, ends as the store's box count |
| LabelPages.DetailText | kojima-farm-app/app.py:70-71 | the detail text built in two steps is `Detail(item)` |
| LabelPages.StoresAreInputStores | kojima-farm-app/app.py:45-47 | a store is a key of the grouping exactly when some entry has that store |
| LabelPages.StoresDistinct | kojima-farm-app/app.py:45-53 | no store is listed twice, so no store gets two pages |
| LabelPages.StoresInFirstOccurrenceOrder | kojima-farm-app/app.py:45-53 | key order, and hence page order, is the order in which stores first appear in the input |
| LabelPages.GroupMultiplicity | kojima-farm-app/app.py:45-47 | every entry is in its own store's group as often as it occurs in the input, and in no other group |
| LabelPages.GroupIsOrderedFilter | kojima-farm-app/app.py:45-47 | a group is the input filtered by store with order kept: its k-th entry sits at the k-th matching input position, positions increase, and every matching position is listed |
| LabelPages.GroupsPartitionInput | kojima-farm-app/app.py:45-47 | summing any per-entry value group by group gives its sum over the whole input, so the groups partition the input |
| LabelPages.BoxCountBounds | kojima-farm-app/app.py:65-73 | a store's total is its full boxes plus one box per item with a positive remainder; so it lies between the full boxes and the full boxes plus the number of items, and equals the full boxes exactly when no remainder is positive |
| LabelPages.PlanPages | kojima-farm-app/app.py:53-80 | one page per distinct store, in first-occurrence order; each page lists its own store's items in input order as `(item, detail)` rows, and its total is that store's own box count (reset for every store), shown in the footer |
| LabelPages.PlanCoversOrder | kojima-farm-app/app.py:45-80 | the pages together have one row per order entry, and their totals add up to the box count of the whole order |
| LabelPages.DetailRoundTrip | kojima-farm-app/app.py:70-71 | the detail text shows the full boxes and the loose pieces exactly; it shows loose pieces only when the remainder is positive |
| LabelPages.DetailLoosePart | kojima-farm-app/app.py:70-71 | " +バラ…" is appended if and only if the remainder is positive |
| LabelPages.FooterRoundTrip | kojima-farm-app/app.py:80 | the footer `計 {store_total} 箱` reads back to the page's own total |
| Retry.GenerateWithRetries | app.py:1-8 | the loop as written, guard included, gives the same result and the same number of calls as the guard-free reference `Retry` |
| Retry.RetryOutcome | app.py:1-8 | at most `max_retries` calls, none when `max_retries <= 0`; every call but the last raised ResourceExhaustedError; the last call's value or foreign error is the result; "Max retries exceeded" comes exactly after `max_retries` exhausted calls |
| Retry.RetryFirstOk | app.py:2-4 | a first success at attempt k is returned after exactly k + 1 calls |
| Retry.RetryOtherPropagates | app.py:3-5 | any other exception at attempt k propagates at once, after k + 1 calls |
| Retry.RetryAllExhausted | app.py:2-8 | if every attempt is exhausted, the callee runs exactly `max_retries` times (zero when `max_retries <= 0`), then "Max retries exceeded" is raised |
| Retry.RetryDefaultBound | app.py:1-8 | with the default `max_retries=3`, at most three calls are made, and the error is raised if and only if the first three calls were all exhausted |
| Pending.PendingArea.SaveImageToPending | app.py:24-27 | the file `pending/<filename>` holds the image's bytes afterwards, replacing earlier content, and no other file changes |
| Pending.PendingArea.SaveImagesToPending | app.py:16-17 | the directory afterwards is the old one with every image of the batch saved in order (`SaveAll`) |
| Pending.PendingArea.DeferOnExhaustion | app.py:15-17 | on ResourceExhaustedError every image of the request is saved; on success or any other error the directory is unchanged |
| Pending.PendingPathInjective | app.py:25 | two file names give the same pending path only when they are equal |
| Pending.SaveAllPaths | app.py:16-25 | saving a batch adds exactly one path per file name of the batch and no other path |
| Pending.SaveAllLeavesOthers | app.py:16-27 | a file whose path is not written by the batch keeps its contents |
| Pending.SaveAllLastWins | app.py:16-27 | each written file holds the bytes of the last image of the batch with that name: a later image overwrites an earlier one |

## Left out

- The Streamlit UI (page setup, API-key input, uploader, button, spinner, success and error messages, download button) is interface plumbing. Among it is the `if order_data:` test that treats an empty order as a failure.
- The Gemini client and its network call are a foreign service. The reply text is an input, and a `response.text` that raises is the input `None`.
- `json.loads` is a library parser. It is the parameter `parse`.
- OrderExtraction.GetOrderData: `parse` returns entries with integer `boxes` and `remainder`, so the model counts every other reply as a parse failure (`None`). The code differs in two ways. It accepts non-integer numbers and prints them: `"boxes": 2.5` gives the detail `2.5箱` and the footer `計 2.5 箱`, and `"remainder": 0.5` gives ` +バラ0.5` and adds a box. Replies of other shapes (a missing key, a value that is not a dictionary) are returned by `get_order_data` too. They raise `KeyError` or `TypeError` later, in `create_b5_pdf` (kojima-farm-app/app.py:47, 68, 70-73), outside the `try`, and give no `None`. Neither the non-integer rendering nor those later exceptions are modelled. The `spec` field is not kept, since no modelled code reads it.
- FPDF drawing (fonts, colours, coordinates, lines, cells) and `pdf.output()` are rendering calls. A page is kept as the record of what it shows.
- PIL image decoding and the timestamped download file name are I/O and the clock.
- The box and half-box rules in the prompt text (kojima-farm-app/app.py:32) are instructions to the model, not code.
- The body of `get_order_data` in app.py (lines 11-14 and 19) is placeholder text, not code. Only its `except` loop is modelled.
- Real file writes are not modelled. The pending directory is a map from path to bytes, and opening a file never fails in the model. Paths are compared as strings, so names that reach the same file on disk are separate keys. Examples are `./a` and `a`, `x/../a`, and names that differ only in case on a case-insensitive file system. The lemmas about which files a batch leaves alone hold for that abstraction only.
- ResourceExhaustedError is neither defined nor imported in app.py. Here it is one outcome of the callee and one kind of raised failure, with its message.
- No code exists for quantity rules, alias tables, a cache, OCR, backoff or jitter, so they are not modelled.

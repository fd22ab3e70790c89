# go-mesi: a verified model

go-mesi assembles pages from Edge Side Includes (ESI Language Specification 1.0): it finds ESI
elements in a page, fetches what they include, picks the branches of `choose` and `try`, and puts
the result together in document order. Around that core it keeps fetched bodies in a cache, limits
and deduplicates concurrent fetches, and runs inside web servers that buffer the page first.

This project models that behaviour in Dafny and proves what the code promises. Strings are byte
strings: a `char` stands for one byte. Everything the code asks of the outside world (backends,
clocks, `$(...)` evaluation, XML decoding of an include tag, URL parsing, Unicode case folding) is a
parameter that may answer differently each time it is asked.

How the files fit together:

- `Strings`, `Tags`, `Options`, `Sets`: searching, the shape of ESI tags, absent values, finite sets.
- `Scanners`, `Tokenizer`, `Blocks`: the scanners and extractors as loops over the page text, each
  proved equal to a recursive function on that text.
- `Document`, `Crossing`, `RoundTrip`: pages as trees, their printed text, and why scanning the
  printed text finds exactly the nodes of the tree. Text between elements may be any text, `<`
  included, that contains and begins no ESI tag.
- `Config`, `Processor`, `Meaning`, `HiddenMarkup`: processing a page, a direct meaning for trees, and the
  theorem that the two agree. `Includes` says what an include, a try and a choose element show case by case and in
  numbers, and `Malformed` what becomes of elements that are not closed. `LeadingBlock`, `LeadingTry` and `LeadingChoose` show where the extractors depart
  from their descriptions on pages of any shape, and for each departure exactly when.
- `Pool`, `Inflight`, `FetchMode`: the worker pool, the fetch protocol and the concurrent fetch mode as
  transition systems over every interleaving. `Outcomes` and `FirstAnswer` tell from the steps of a run alone how each
  fetch ends and what the caller is answered.
- `MemoryCache`, `ResponseWriter`, `BodyFilter`: the stateful classes, each method proved against a
  function on states, and theorems over whole histories. `Expiry` says in numbers how long a cache entry lives.
- `Hosts`, `Redirects`, `Base64`, `Fingerprint`: which addresses a fetch may ask, and how policies stay
  apart in a shared cache.
- `CacheKey`, `KeyRules`, `CookieHeader`, `Json`, `Utf8`, `Decimal`, `RequestContext`, `ContextReader`,
  `ContextRules`, `GoRequest`, `ParseConfig`, `ConfigLookup`: cache keys from templates, the JSON writers of the server modules with readers that undo them (JSON strings are
  decoded as UTF-8, the way Go's encoding/json does), and the request the library rebuilds from what it reads.

The main results, hardest first:

1. Processing the printed text of any well-formed page gives the page's direct meaning
   (`Meaning.ProcessingIsMeaning`), also with any of its text hidden in `<!--esi -->` sections
   (`HiddenMarkup.HidingKeepsMeaning`), and for every schedule and number of workers
   (`Pool.PoolRendersThePage`). A failed include shows nothing, the page inside it, or the marker, in the order its
   tag asks for, and a try gives way to its except exactly if an include directly in it fails openly
   (`Includes.FailedIncludeShows`, `Includes.TryOfDocShows`).
2. In every interleaving of any fetches there is one upstream body per cache key, plus one for each
   time the cache lost it, no deadlock, and every fetch ends (`Inflight.SingleFlight`,
   `Inflight.NoDeadlock`, `Inflight.EveryFetchEnds`). A fetch fails exactly if one of its own steps defeated it, and
   otherwise returns the body it got (`Outcomes.EndsAsSettled`).
3. The cache keeps exactly the least recently used entries out, over all histories
   (`MemoryCache.EvictionIsExactlyLeastRecentlyUsed`), and a value is found exactly until its time to live has passed
   (`Expiry.SetIsFoundExactlyInTime`).
4. Policies never share cache entries unless they accept the same hosts (`Fingerprint.PoliciesAreIsolated`),
   and no request of a fetch, redirects included, leaves the host list (`Redirects.FollowRedirects`,
   `Redirects.ValidExactlyListed`).
5. Buffers over a limit are handed on byte for byte or refused, buffers under it processed once
   (`BodyFilter.PageIsProcessedOrPassedOn`, `ResponseWriter.OversizeExactly`).
6. The JSON the nginx module writes fills its measured buffer exactly and decodes to the settings, headers and
   cookies it was made from, texts unchanged exactly if they are UTF-8 (`ParseConfig.BlobIsReadBack`,
   `Json.LiteralIsReadBack`). Apache's builder writes the same text unless the error marker is empty
   (`ParseConfig.MesiBuildParseJsonConfig`), and every setting of either module is found under its own name
   (`ConfigLookup.NginxIsUnderstood`, `ConfigLookup.ApacheIsUnderstood`). The library decodes headers into a map: its lookups answer with the
   first value the client sent exactly if, for every header, the last value under its own spelling is the first under
   any (`GoRequest.AnswersAsSentExactly`).
7. The bodies found in a try element and the children found in a choose element, with any pages around them
   (`LeadingTry.AttemptIsFoundIffNoTryLeads`, `LeadingTry.OwnExceptIsFoundIffNoneIntervenes`,
   `LeadingChoose.ChildrenAreFoundUpToAChoose`).

Where code and comments disagree, the model follows the code:

- `findTryClose` (mesi/parser.go:416-445) and `findChooseClose` (mesi/parser.go:587-614) are described as
  finding the close that matches the opening tag they are called at. They answer with the close of the
  enclosing block (`LeadingBlock.BlockCloseIsTheEnclosingOne`). So a try element in front of an attempt loses both
  bodies, exactly then (`LeadingTry.AttemptIsFoundIffNoTryLeads`), and a choose element between the children of a
  choose loses all children behind it, exactly then (`LeadingChoose.ChildrenAreFoundUpToAChoose`).
- `extractTryBlocks` is said to handle nested try blocks by their depth (mesi/parser.go:234-237), but it looks for the
  except child with a plain search (mesi/parser.go:283). An except element at any depth between the attempt and the own
  except is taken instead, exactly then (`LeadingTry.OwnExceptIsFoundIffNoneIntervenes`, `LeadingTry.MissedExample`).
- mesi/ssrf.go:89-91 and 99-100 say that different raw host strings always give different fingerprints. Hosts that
  differ in ASCII case or by one trailing dot give the same (`Fingerprint.DifferentHostsSameFingerprint`); what
  is true, and proved, is that they then accept the same hosts.
- mesi/cache_key_template.go:76-78 promises the first value of a header in any case. A spelling without
  values can hide one with values (`CacheKey.EmptySpellingHides`), exactly if it is the least spelling and neither the
  canonical nor the asked one has a value (`CacheKey.MissedExactly`).
- libgomesi/libgomesi.go:295-302 keeps the first value of a header. Of a header sent twice the nginx module writes two
  members of one name, and decoding keeps the last (`GoRequest.RepeatedHeaderDiffers`).
- servers/nginx/ngx_http_mesi_module.c:1298-1312 calls its configuration blob a mirror of Apache's. The two agree
  exactly unless the error marker is set to the empty text (`ParseConfig.MesiBuildParseJsonConfig`,
  `ParseConfig.MarkerShows`).

## Model

| member | source | states |
|---|---|---|
| Scanners.FindMatchingEndTag | mesi/tokenizer.go:38-63 | the depth-counting search returns what the reference scan returns, on every text |
| Scanners.FindBlockClose | mesi/parser.go:416-445 | the try and choose scanners, which start at an opening tag and count it, are the reference scan from depth 0 |
| Scanners.FindChildClose | mesi/parser.go:303-358 | the four child scanners (attempt, except, when, otherwise), which count a child tag and its block's tag together, are the reference scan from depth 0 |
| Tokenizer.FindOpener | mesi/tokenizer.go:69-79 | finds the supported opener that starts earliest, the first listed of several at one place |
| Tokenizer.FindEnd | mesi/tokenizer.go:89-108 | finds where the element at the front of a text ends, by the rule for its kind, or that it is not closed |
| Tokenizer.EsiTokenizer | mesi/tokenizer.go:65-117 | the loop yields the reference tokens, on every text |
| Tokenizer.TokensAreLossless | mesi/tokenizer.go:65-117 | on every text token sources concatenate to the input, there is a token, and no static token but a last unclosed one contains a supported opener |
| Malformed.TagTexts | mesi/tokenizer.go:7-15 | what the scanners look for in a page, letter by letter |
| Malformed.UnclosedBlockIsText | mesi/tokenizer.go:84-112 | a block element without its closing tag is text from its tag on, whatever page follows |
| Malformed.UnclosedIncludeIsText | mesi/tokenizer.go:84-112 | so is an include that neither closes itself nor is closed |
| Malformed.UnendedTagIsText | mesi/tokenizer.go:84-112 | so is a tag of any kind that never ends |
| Blocks.FindAttempt | mesi/parser.go:238-266 | the search loop for the attempt child returns what the reference search returns |
| Blocks.ExtractTryBlocks | mesi/parser.go:238-301 | returns the reference attempt and except bodies, on every text, with all slices in range |
| Blocks.FindExcept | mesi/parser.go:279-300 | returns the reference except body |
| Blocks.FindChooseChildTag | mesi/parser.go:564-585 | returns what the reference search for a direct child of a choose returns |
| Blocks.ExtractChooseBlocks | mesi/parser.go:471-562 | returns the reference when list and otherwise body, on every text, with all slices in range |
| Malformed.UnclosedAttempt | mesi/parser.go:273-277 | the body of an unclosed attempt is everything behind its tag, and there is no except body |
| Malformed.UnclosedExcept | mesi/parser.go:294-297 | an unclosed except has no body, and the attempt keeps its own |
| Malformed.UnclosedWhen | mesi/parser.go:525-530 | an unclosed when is the last child, its body everything behind its tag |
| Malformed.UnclosedOtherwise | mesi/parser.go:540-556 | the same for an unclosed otherwise |
| Malformed.WhenWithoutTest | mesi/parser.go:499-507 | a when tag behind which no test attribute comes is passed over, and only the tag |
| Malformed.WhenWithOpenQuote | mesi/parser.go:509-513 | behind a test attribute that is never closed no child is read |
| Crossing.DocCrosses | mesi/parser.go:303-445 | every scanner that enters the text of a well-formed page leaves it at the depth it came with |
| RoundTrip.HeadEnds | mesi/tokenizer.go:89-113 | the first element of a printed page ends exactly where its text ends, whatever follows |
| RoundTrip.TokensOfDoc | mesi/tokenizer.go:65-117 | tokenizing a printed page gives exactly its top-level nodes, at any nesting depth |
| RoundTrip.ExtractTryOfDoc | mesi/parser.go:238-301 | extracting from a printed try element gives exactly its attempt and except bodies |
| RoundTrip.ExtractChooseOfDoc | mesi/parser.go:471-562 | extracting from a printed choose element gives exactly its tests and bodies in order and its last otherwise body |
| LeadingBlock.BlockCloseIsTheEnclosingOne | mesi/parser.go:416-445 | called at an element's opening tag the scanner passes that element and answers with the next close left open behind it |
| LeadingTry.AttemptIsFoundIffNoTryLeads | mesi/parser.go:246-300 | with any pages before the attempt child, between the children and at the end, both bodies are lost exactly if the first page holds a try element; else the attempt is found and the except body is the first behind it |
| LeadingTry.OwnExceptIsFoundIffNoneIntervenes | mesi/parser.go:279-300 | the own except body is found exactly if the page between the children holds no except element, else the first of that page is taken; a try without an except child takes the first one behind its attempt, if any |
| LeadingTry.MissedExample | mesi/parser.go:283 | one page whose own except body is missed for that of a nested try |
| LeadingChoose.ChildrenAreFoundUpToAChoose | mesi/parser.go:564-585 | with any page between the children of a choose, all are found exactly if that page holds no choose element, else only those before it |
| LeadingTry.LostExample | mesi/parser.go:255-262 | one page whose attempt body is lost |
| LeadingChoose.LostWhenExample | mesi/parser.go:574-582 | one page whose when is lost |
| Config.BudgetsOnlyTighten | mesi/config.go:114-200 | down any chain of includes the time left is at most what is left of the first budget after every charge and never negative, depth shrinks by one a hop, and each tag's max-depth bounds all depth below it |
| Processor.UnescapeText | mesi/unescape.go:5-33 | the loop yields the reference text without section marks |
| Processor.FindUnquotedCloseBracket | mesi/inline.go:5-25 | finds the first bracket outside quotes |
| Processor.Process | mesi/parser.go:78-232 | processing ends on every text and every backend; backends are asked at most maxDepth levels below one another, and none is given more time than the page had |
| Processor.RenderInclude | mesi/parser.go:188-204 | an include, its page and all below it keep to the depth left, and no backend among them is given more time than was left of the page's budget when the include began |
| Processor.RenderTry | mesi/parser.go:753-773 | rendering a try element ends and keeps to the depth and time of its page |
| Processor.RenderAttempt | mesi/parser.go:779-825 | rendering an attempt body ends and keeps to the depth and time of its page |
| Processor.RenderChoose | mesi/parser.go:727-747 | rendering a choose element ends and keeps to the depth and time of its page |
| Includes.IncludeShows | mesi/include.go:37-76 | every include tag: its own depth, time and address in numbers, what it shows when the backend answers, and else nothing, its text or the marker, in this order; processed once more exactly if depth, time and header allow it; and that it asks a backend exactly if a level is left |
| Includes.FailedIncludeShows | mesi/include.go:60-73 | an include node that fails shows nothing if its tag says continue, else the page inside it if there is one, else the marker |
| Includes.AttemptStops | mesi/parser.go:779-825 | an attempt body fails exactly if an include directly in it cannot be decoded, or fails without continue and without text inside it, and is rendered like a page if not |
| Includes.TryShows | mesi/parser.go:753-773 | every try element shows its attempt or, exactly then, its except and nothing of the attempt |
| Includes.TryOfDocShows | mesi/parser.go:753-773 | the same for a try element of a page, in terms of the page |
| Includes.TestIsTrueOrOne | mesi/parser.go:451-460 | a test holds exactly if it evaluates, white space at its ends taken off, to true or 1 |
| Includes.ChooseShows | mesi/parser.go:727-747 | every choose element shows the first when whose test holds, else the otherwise body, else nothing |
| Includes.PageCountsAll | mesi/parser.go:78-232 | the depth and time recorded for a page cover every piece of it |
| Meaning.InlineOfDoc | mesi/inline.go:27-41 | an inline body is shown exactly as written |
| Malformed.InlineWithoutEnds | mesi/inline.go:27-41 | an inline text without a tag end is shown whole, and one without a closing tag behind it from there on |
| Meaning.IncludeIsMeant | mesi/include.go:37-76 | an include shows its page, or nothing, its own body or the marker, as its tree means |
| Meaning.AttemptIsMeant | mesi/parser.go:779-825 | an attempt body shows its nodes up to the first include that fails unhandled, and says whether one did |
| Meaning.TryIsMeant | mesi/parser.go:753-773 | a try element shows its attempt unless an include directly in it fails unhandled, else its except |
| Meaning.ChooseIsMeant | mesi/parser.go:727-747 | a choose element shows the first when whose test holds, else the otherwise body |
| Meaning.ProcessingIsMeaning | mesi/parser.go:78-232 | for every well-formed page, backends and clock, processing the printed text gives the page's direct meaning |
| HiddenMarkup.UnescapeWritten | mesi/unescape.go:5-33 | removing section marks undoes writing them, wherever sections begin and end |
| HiddenMarkup.HidingKeepsMeaning | mesi/parser.go:104-105 | a page means the same with any of its text hidden, even across element boundaries |
| HiddenMarkup.OverrideLimitsDepth | mesi/config.go:171-200 | an include with max-depth k asks for its page and at most k levels below it, whatever pages come back |
| HiddenMarkup.OverrideLimitsTime | mesi/config.go:153-162 | no backend at or below an include with a timeout is given more time than what is left of that timeout |
| Pool.AssembleResults | mesi/parser.go:17-34 | returns the contents of the responses sorted by index |
| Pool.AssembledInOrder | mesi/parser.go:17-34 | responses received in any order are put together in document order |
| Pool.StepConserves | mesi/parser.go:156-231 | no step of the pool loses, repeats or invents a job |
| Pool.StepKeepsInv | mesi/parser.go:156-231 | every step keeps the whole pool invariant |
| Pool.ReceivedAreAnswers | mesi/parser.go:216-226 | what was received is genuine, from distinct jobs, and everything once the last response is in |
| Pool.RunsAreBounded | mesi/parser.go:156-231 | every run is at most as long as a measure of its start |
| Pool.NobodyIsStuck | mesi/parser.go:156-231 | in every reachable state, until the pool has returned something other than a cancellation can happen, cancelled or not |
| Pool.AlwaysReturns | mesi/parser.go:156-231 | from every reachable state the pool comes to its return without a further cancellation |
| Pool.PoolRendersThePage | mesi/parser.go:156-231 | for every worker count and schedule the output is an ordered selection of the page's pieces that misses at most include elements, and without cancellation it is exactly the processed page |
| Inflight.InflightLocks.Acquire | mesi/fetch.go:32-43 | returns the key's lock, new if there was none, with one more reference, and changes nothing else |
| Inflight.InflightLocks.Release | mesi/fetch.go:49-57 | takes one reference back and removes the key exactly when none is left and the table still has this lock |
| Inflight.StepKeepsInv | mesi/fetch.go:144-353 | every step of any fetch keeps: reference counts are the participants, participants of a key share the lock in the table, a channel is full exactly while one of them holds it, slots are the fetches in the region and within the cap |
| Inflight.TableHoldsExactlyTheKeysInUse | mesi/fetch.go:25-57 | in every reachable state a key is in the table exactly while it has participants, counted exactly |
| Inflight.AtMostOneInside | mesi/fetch.go:245-265 | in every run at most one fetch of a key is in its critical section, holding the lock that is in the table |
| Inflight.SingleFlight | mesi/fetch.go:222-265 | in every run the bodies delivered for a key are at most one more than the cache's losses of it, every success returns one of them, and without losses all successes return the one body |
| Inflight.NoDeadlock | mesi/fetch.go:177-265 | in every reachable state with an unfinished fetch some fetch can step even if no deadline fires |
| Inflight.EveryFetchEnds | mesi/fetch.go:144-353 | no fetch takes more than 11 steps in any run, and a run that only a deadline or an eviction could prolong has finished every fetch |
| Outcomes.EndsAsSettled | mesi/fetch.go:144-353 | in every run a finished fetch has failed exactly if one of its own steps was a rejection, a timeout, a refusal or a failed request; otherwise it returns the body its backend delivered or the one the cache held at its lookup, with or without a key |
| Outcomes.OneDeliveryPerCacheFailure | mesi/fetch.go:222-265 | counted over the steps of a run, backends deliver for a key at most one body more than the cache dropped or failed it, and every success is one of them |
| Outcomes.AnythingCanHappen | mesi/fetch.go:144-353 | in every reachable state a waiting fetch may time out, a lookup or store fail or not, and a backend fail or deliver any body |
| FetchMode.FirstSuccessOrBothFailed | mesi/fetch_mode.go:36-55 | over every interleaving data returned is data of one fetch, and with a live parent an error is returned only if both failed and is the error of one |
| FetchMode.NoTaskBlocks | mesi/fetch_mode.go:25-34 | a task that has a result can always send it, whatever the others have done |
| FetchMode.CallerIsServed | mesi/fetch_mode.go:36-55 | while the caller waits some task or the caller can step without the parent ending |
| FetchMode.StepsRunOut | mesi/fetch_mode.go:10-56 | every run ends, after at most 11 steps |
| FetchMode.EndsAnswered | mesi/fetch_mode.go:10-56 | when nothing can step the caller has its answer and both tasks are finished |
| FirstAnswer.AnsweredExactly | mesi/fetch_mode.go:36-55 | over every interleaving, parent ending or not: the caller has returned exactly if the first result taken out was data, a second one was taken out, or the context was seen to end, and it returns that data, the second result, the failure taken out before, or the context's own |
| FirstAnswer.AnyResultIsPossible | mesi/fetch_mode.go:25-34 | a task under way may get any result, and the parent may end at any time |
| FetchMode.FetchFallback | mesi/fetch_mode.go:58-72 | Alt is asked only after Src failed, with exactly the time left, and both together fit the budget |
| MemoryCache.MemoryCache.Get | mesi/cache_memory.go:34-50 | returns the value unless absent or expired, moves a hit to the front and removes an expired entry |
| MemoryCache.MemoryCache.Set | mesi/cache_memory.go:52-91 | replaces or inserts at the front, evicting from the back while the cache is full, with the expiry the ttl gives |
| MemoryCache.MemoryCache.Delete | mesi/cache_memory.go:93-101 | removes the entry from map and list |
| MemoryCache.MemoryCache.EvictLRU | mesi/cache_memory.go:108-118 | removes the entry at the back of the list |
| MemoryCache.GetAfterAnyHistory | mesi/cache_memory.go:34-118 | after any history map and list hold the same keys once each within the size limit, and a hit is the last value set since any delete and not expired |
| MemoryCache.RecentlyUsedStays | mesi/cache_memory.go:52-118 | an undeleted, unexpired key stays while fewer than maxSize other keys were touched since its last touch |
| MemoryCache.EvictionIsExactlyLeastRecentlyUsed | mesi/cache_memory.go:52-118 | without deletes and expiries a key left alone stays exactly while fewer than maxSize others were touched |
| Expiry.HitsExactlyInTime | mesi/cache_memory.go:34-91 | after a set and operations that leave the key in place a lookup hits, with the value set, exactly while the time to live (the default if 0, none if not positive) has not passed, and removes the entry if it has |
| Expiry.SetIsFoundExactlyInTime | mesi/cache_memory.go:34-118 | after a set of a key, with fewer than maxSize other keys used and nothing but lookups of this one, a lookup hits exactly if the time to live has passed neither now nor at any of them |
| ResponseWriter.ResponseWriter.Decide | middleware/responsewriter.go:98-121 | the first call decides once, from headers and limit, whether the body is watched or already oversize |
| ResponseWriter.ResponseWriter.Trigger | middleware/responsewriter.go:123-136 | going over the limit happens once, and in pass mode sends status and buffer |
| ResponseWriter.ResponseWriter.Write | middleware/responsewriter.go:138-155 | buffers, hands on or drops all bytes as the state says, and answers what the wrapped writer answered exactly if they were handed on |
| ResponseWriter.ResponseWriter.WriteHeader | middleware/responsewriter.go:157-169 | informational codes pass through, the first other code decides |
| ResponseWriter.ResponseWriter.HandleOversize | middleware/responsewriter.go:176-188 | says whether the body went over the limit and in error mode answers 502 |
| ResponseWriter.NothingIsLost | middleware/responsewriter.go:98-188 | over every call sequence in pass mode sent bytes then buffered bytes are everything written in order, a watched buffer stays within the limit, and notify fires at most once |
| ResponseWriter.OversizeExactly | middleware/responsewriter.go:98-155 | a response is oversize exactly if the limit is positive, it is HTML that ESI applies to, and more bytes were written, or declared with a status other than 204 and 304, than the limit |
| ResponseWriter.ToldOnceAndRight | middleware/responsewriter.go:98-169 | the callback is told the declared size or the size reached by the call that went over the limit, the client the last status code set by then |
| ResponseWriter.ChunksDoNotMatter | middleware/responsewriter.go:138-155 | writing the same bytes in other pieces after the same decision ends the same |
| BodyFilter.FilterCtx.Grow | servers/nginx/ngx_http_mesi_module.c:648-676 | the new capacity fits the bytes and the limit, the content is kept, and all bytes recopied so far are at most twice the new length |
| BodyFilter.FilterCtx.Append | servers/nginx/ngx_http_mesi_module.c:648-679 | appends exactly the buffer's bytes, every copy in bounds |
| BodyFilter.FilterCtx.Take | servers/nginx/ngx_http_mesi_module.c:598-717 | takes in exactly the bytes of the buffers it marks as read: all of them, those up to the first last one, or those before the first that does not fit; accumulating, completing, passing on or aborting as the reference pass does |
| BodyFilter.FilterCtx.Filter | servers/nginx/ngx_http_mesi_module.c:574-735 | one call of the filter, in every mode, is one step of the reference session |
| BodyFilter.CollectMeans | servers/nginx/ngx_http_mesi_module.c:598-717 | what one pass keeps, completes or passes on is the bytes received, in order, and it stops exactly when the page is over the limit |
| BodyFilter.PageIsProcessedOrPassedOn | servers/nginx/ngx_http_mesi_module.c:574-735 | however the page is cut, one larger than a positive limit is refused or handed on byte for byte with its last mark, and any other is handed on once, processed, in one last buffer |
| Hosts.HostAllowed | mesi/ssrf.go:49-63 | the loop accepts exactly if the list is empty or some entry matches |
| Hosts.MatchesByLabels | mesi/ssrf.go:65-75 | on ASCII names a host matches exactly if the allowed name's labels are the last labels of the host, ignoring case and one trailing dot |
| Hosts.OneDotIsIgnored | mesi/ssrf.go:65-75 | one dot at the end of either name does not matter, and of two one stays |
| Redirects.FirstAddress | mesi/fetch.go:189-220 | an address with a scheme is where the fetch starts exactly if it passes the checks; one without is put behind the default URL, exactly if there is one and both addresses pass; and else which check refused it |
| Redirects.ExpandedJoinsWithOneSlash | mesi/fetch.go:205-210 | the default URL and a relative address are joined by one slash, however many they have |
| Redirects.StartsExactlyWhereListed | mesi/fetch.go:189-220 | on ASCII names a fetch starts exactly at a listed address, or at a relative one if the host it names and the address it becomes are listed |
| Redirects.FollowRedirects | mesi/fetch.go:272-317 | every answer before the last is a 301, 302, 303, 307 or 308 with a Location leading to the next address, all validated; the result is the last answer exactly if it is there and is none; a chain of up to ten valid redirects is followed to its end |
| Redirects.ValidExactlyListed | mesi/fetch.go:88-104 | an address passes validation exactly if it is http or https and its host lies under a listed host, and is invalid, not blocked, exactly if it has no such scheme or no host |
| Redirects.ReadBody | mesi/fetch.go:320-347 | a body is returned exactly if it is within the cap and the status is below 400; at the largest cap the read would be empty, which the guard before it rules out |
| Base64.DecodeEncode | mesi/ssrf.go:88-91 | encoding host bytes loses nothing |
| Base64.TestVectors | mesi/ssrf.go:88-91 | the encoding is the standard one: the vectors of section 10 of RFC 4648 up to one group, and its two marks |
| Base64.LongerTestVectors | mesi/ssrf.go:88-91 | and the longer vectors |
| Fingerprint.SecurityPolicyFingerprint | mesi/ssrf.go:102-121 | the loop over hosts with its seen set yields the reference fingerprint |
| Fingerprint.FingerprintIsCanonical | mesi/ssrf.go:81-121 | two fingerprints are equal exactly if flags and client kind are equal and the normalised host sets are equal, so order and repetition do not matter |
| Fingerprint.FingerprintText | mesi/ssrf.go:102-121 | the text is the normal forms of the hosts, each once and in byte order, and the three flags under their names |
| Fingerprint.ItemsText | mesi/ssrf.go:117 | the list of hosts is JSON, item by item |
| Strings.BeforeExactly | mesi/ssrf.go:116 | byte order: the beginning of a text, or the smaller byte where they first differ |
| Fingerprint.PoliciesAreIsolated | mesi/fetch.go:222-238 | equal cache keys with fingerprints mean equal first parts, equal flags, and the same verdict on every host |
| Fingerprint.DifferentHostsSameFingerprint | mesi/ssrf.go:88-100 | two different host lists with one fingerprint |
| CacheKey.CanonicalIsSameName | mesi/cache_key_template.go:84-92 | the canonical spelling of a name differs from it only in case |
| KeyRules.CanonicalSpelling | mesi/cache_key_template.go:84-92 | a canonical name is upper case at its start and behind dashes and lower case elsewhere, unless it has a character no token has |
| CacheKey.RequestHeaderValue | mesi/cache_key_template.go:79-111 | whatever order the map is walked in, the answer is the canonical spelling's value, then the asked spelling's, then the least other spelling's |
| KeyRules.HeaderRule | mesi/cache_key_template.go:79-111 | told from the map: the first value of the canonical spelling, else of the asked one, else of the least |
| CacheKey.MissedExactly | mesi/cache_key_template.go:76-111 | a header that some spelling has a value for is missed exactly if the canonical spelling has none, nor the asked one, nor the least of all spellings |
| CacheKey.FoundExactly | mesi/cache_key_template.go:76-111 | if no spelling of the name is without values, the header is found exactly if some spelling is there |
| CacheKey.EmptySpellingHides | mesi/cache_key_template.go:94-110 | a spelling without values hides one with values |
| CacheKey.RequestCookieValue | mesi/cache_key_template.go:123-149 | the first exact match, else the least name that differs only in case, its first occurrence |
| KeyRules.CookieRule | mesi/cache_key_template.go:123-149 | told from the list: the first cookie of exactly this name, else the first of the least name in any case |
| KeyRules.NoCookieRule | mesi/cache_key_template.go:123-149 | no value if no name agrees in any case, or the name is empty |
| CacheKey.CacheKeyPlaceholder | mesi/cache_key_template.go:63-74 | what a placeholder body stands for, or nothing |
| KeyRules.PlaceholderRule | mesi/cache_key_template.go:63-74 | header: stands for a header, cookie: for a cookie, url for the address, and anything else for nothing |
| KeyRules.OnePlaceholder | mesi/cache_key_template.go:18-58 | the key of a lone placeholder is what it stands for, or its text |
| CacheKey.BuildCacheKey | mesi/cache_key_template.go:23-58 | the loop yields the template's text filled in once |
| CacheKey.EveryTextIsATemplate | mesi/cache_key_template.go:23-58 | every text is a sequence of plain pieces and placeholders that prints back to it |
| CacheKey.PrintedIsParsed | mesi/cache_key_template.go:32-55 | taking a printed template apart gives exactly its pieces |
| CacheKey.KeyIsOneSubstitution | mesi/cache_key_template.go:18-58 | the key of a template is each placeholder substituted once, values never read again |
| CacheKey.UnresolvedStays | mesi/cache_key_template.go:49-53 | a template none of whose placeholders stands for anything is its own key |
| CacheKey.ContextIsNotNeeded | servers/nginx/ngx_http_mesi_module.c:1039-1054 | for a template without header and cookie placeholders every request gives the same key, so sending none is safe |
| CookieHeader.ReadCookie | servers/nginx/ngx_http_mesi_module.c:1092-1145 | one round of the tokenizer reads one piece as the reference does, in bounds |
| CookieHeader.CookiesAreThePairs | servers/nginx/ngx_http_mesi_module.c:1092-1145 | the tokenizer finds exactly the pairs that splitting at semicolons and at the first equals sign gives |
| ContextRules.PiecesAre | servers/nginx/ngx_http_mesi_module.c:1092-1145 | each semicolon begins a piece |
| ContextRules.PieceIs | servers/nginx/ngx_http_mesi_module.c:1092-1145 | a piece is a cookie exactly if it has an equals sign and a name before the first one |
| ContextRules.TrimIs | servers/nginx/ngx_http_mesi_module.c:1126-1141 | names and values lose the blanks and tabs at their ends and nothing else |
| Json.EscapedLen | servers/nginx/ngx_http_mesi_module.c:911-923 | the measured length is the length of the escaped text |
| Json.WriteEscaped | servers/nginx/ngx_http_mesi_module.c:925-942 | writes exactly the escaped text behind what was written |
| Json.AppendStr | servers/nginx/ngx_http_mesi_module.c:945-949 | writes exactly one string literal |
| Json.LiteralIsReadBack | servers/nginx/ngx_http_mesi_module.c:905-949 | a literal decodes to the text it was made of with every byte that is not UTF-8 replaced, so to that text exactly if it is UTF-8 (section 7 of RFC 8259) |
| Utf8.Utf8Exactly | servers/nginx/ngx_http_mesi_module.c:905-949 | a text is UTF-8 exactly if it is made of encoded code points, surrogates excepted |
| Utf8.DecodedExactly | servers/nginx/ngx_http_mesi_module.c:905-949 | decoding keeps each encoded code point and replaces each other byte by U+FFFD |
| Decimal.DigitCount | servers/nginx/ngx_http_mesi_module.c:957-964 | the counted digits are those of the value |
| Decimal.Scratch | servers/nginx/ngx_http_mesi_module.c:966-972 | the digits of any accepted value, last first, fit the scratch array |
| Decimal.WriteDecimal | servers/nginx/ngx_http_mesi_module.c:966-976 | writes exactly the digits of the value |
| Decimal.ParseSize | servers/nginx/ngx_http_mesi_module.c:2403-2442 | accepts exactly non-empty digit texts up to the limit, with their value, the guard keeping every intermediate value in range |
| Decimal.WrittenAndReadBack | servers/nginx/ngx_http_mesi_module.c:966-976 | a written value reads back, and a text read is what would be written exactly if it has no superfluous zero |
| RequestContext.MeasureCookies | servers/nginx/ngx_http_mesi_module.c:1092-1152 | adds exactly the size of the cookies of one header, commas included |
| RequestContext.Measure | servers/nginx/ngx_http_mesi_module.c:1056-1163 | the first pass measures the document exactly, with its terminator |
| RequestContext.WriteHeaders | servers/nginx/ngx_http_mesi_module.c:1175-1203 | writes exactly the visible headers that are not cookies |
| RequestContext.WriteCookies | servers/nginx/ngx_http_mesi_module.c:1225-1288 | writes exactly the cookies of one header behind those before |
| RequestContext.ContainsNeedle | servers/nginx/ngx_http_mesi_module.c:1011-1024 | finds the needle exactly if it occurs, never looking outside |
| RequestContext.BuildRequestCtxJson | servers/nginx/ngx_http_mesi_module.c:1045-1296 | the buffer of the measured size is filled exactly with the document and its terminator, or is empty text when the template asks for nothing |
| ContextReader.ContextIsReadBack | servers/nginx/ngx_http_mesi_module.c:1026-1043 | the document's members are exactly the visible headers and its array exactly the cookies, in order, decoded as UTF-8 |
| ContextRules.EachHeaderCounts | servers/nginx/ngx_http_mesi_module.c:1026-1043 | header by header: a hidden one adds nothing, one named cookie in any case its cookies, any other itself |
| GoRequest.SetHeaders | libgomesi/libgomesi.go:291-303 | the loop over the decoded map, in any order, sets every key's value under its canonical spelling |
| GoRequest.AnswersAsSentExactly | libgomesi/libgomesi.go:278-312 | every lookup answers with the first value sent under any spelling, in every order of the walk, exactly if for each header sent the last value under its own spelling is the first under any |
| GoRequest.DistinctNamesAnswer | libgomesi/libgomesi.go:278-312 | in particular if no two headers share a name in any case |
| GoRequest.RepeatedHeaderDiffers | libgomesi/libgomesi.go:273-303 | a header sent twice is answered with its last value |
| GoRequest.CookieLineIsApart | libgomesi/libgomesi.go:304-309 | adding the cookies changes no lookup of a header of another name |
| GoRequest.Utf8IsKept | libgomesi/libgomesi.go:286-290 | decoding leaves the headers as they were sent exactly if they are UTF-8 |
| GoRequest.ContextAnswersAsSent | libgomesi/libgomesi.go:278-312 | from nginx's headers through the document to the lookups of the rebuilt request, both conditions together |
| ParseConfig.Measure | servers/nginx/ngx_http_mesi_module.c:1385-1428 | the first pass measures the blob exactly for every set of options |
| ParseConfig.BuildParseJsonConfig | servers/nginx/ngx_http_mesi_module.c:1348-1522 | the buffer of the measured size is filled exactly, whatever options are set |
| ParseConfig.MesiJsonString | servers/apache/parse_json_config.h:64-94 | one pass into a worst-case buffer stays in it and gives the same literal as the two-pass writer |
| ParseConfig.BlobIsReadBack | servers/nginx/ngx_http_mesi_module.c:1348-1522 | decoding the blob gives every option that is set under its name and in order, texts as UTF-8 and the request context as its headers and cookies |
| ConfigLookup.NginxIsUnderstood | servers/nginx/ngx_http_mesi_module.c:1348-1522 | the blob decodes to an object with every setting under its own name exactly if it is set, the template only if not empty, the context only next to a template, and nothing else |
| ParseConfig.MesiBuildParseJsonConfig | servers/apache/parse_json_config.h:98-161 | Apache's builder, with its own guards on -1, NULL and empty texts, writes the reference blob without an empty marker, which is nginx's blob exactly unless the marker is the empty text |
| ConfigLookup.ApacheIsUnderstood | servers/apache/parse_json_config.h:98-161 | what Apache writes decodes to its own fields: -1 and NULL give no member, of a switch 0 gives false and anything else true, empty texts none but the URL and the hosts |
| ParseConfig.MarkerShows | servers/apache/parse_json_config.h:133-136 | dropping an empty marker changes the blob exactly if there is one |

## Left out

- Foreign code: HTTP transport, DNS and dial-time address checks, and the URL, XML and JSON libraries are parameters or readers written here.
- Expressions: `$(...)`, `<esi:vars>` assignments and the shared Variables map are an uninterpreted evaluation that may answer differently at every place.
- Redis and Memcached: the fetch protocol uses an abstract cache that may lose entries and fail.
- Server glue: the C ABI, PHP, Caddy, Traefik and RoadRunner plumbing, flag parsing, logging and warnings only wire and range-check.
- The A/B fetch mode, parsing of the timeout and max-depth attributes to numbers, and normalisation of worker counts would add only easy members.
- Whole-page deadlines: choose and except bodies restart the clock with the full timeout, so what is proved is how much time each backend is given, and the total along include chains; the total of a page is not bounded.
- Processor.Process: the pool's timing is not part of it; module Pool shows the pool delivers its output.
- Processor.RenderInclude: its contract states the depth and time bounds; Meaning.IncludeIsMeant states what is shown.
- Processor.RenderTry: its contract states the depth and time bounds; Meaning.TryIsMeant states what is shown.
- Processor.RenderAttempt: its contract states the depth and time bounds; Meaning.AttemptIsMeant states what is shown.
- Processor.RenderChoose: its contract states the depth and time bounds; Meaning.ChooseIsMeant states what is shown.
- Processor.TrimSpace: trims ASCII white space only, where the library also trims Unicode white space.
- FetchMode.FirstSuccessOrBothFailed: an empty Alt makes the source a single fetch; only the two-fetch case is a protocol.
- Redirects.FollowRedirects: building a request for an address that parses cannot fail, so its error is one with a failed answer.
- BodyFilter.FilterCtx.Filter: allocation failure and wrap-around of sizes near the address space are not modelled, and a buffer's bytes are in memory.
- RequestContext.BuildRequestCtxJson: nginx's header list in parts is one sequence, and allocation failure is not modelled.
- GoRequest.SetHeaders: a header whose JSON value is a list, which the nginx module never writes, is not modelled.
- GoRequest.CookieLineIsApart: net/http's own writing and reading of the `Cookie` line is not modelled, so cookies are followed up to the decoded document.
- LeadingChoose.ChildrenAreFoundUpToAChoose: every when has its `test` attribute; a when tag without one takes the next `test="` in the text behind it (mesi/parser.go:499), as Blocks.ExtractChooseBlocks states on every text.
- ParseConfig.MesiBuildParseJsonConfig: how Apache builds its request context is not modelled; it is the same context as nginx's here.
- Inflight.SingleFlight: deadlines and refusals may end any fetch early; it is not claimed that a given fetch succeeds.
- Streaming calls of the response writer (`Flush`, `Hijack`) and its copying of headers.

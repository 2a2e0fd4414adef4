# A verified model of jinja2's runtime helpers and the ipool proxy scrapers

This project models two parts of one repository in Dafny and proves properties of
the model.

**Template engine helpers.** These come from the bundled jinja2 (`libs/jinja2/dist/merge_all.py`):

- The bounded template cache `LRUCache`: a dictionary plus a recency queue. A full
  cache evicts the least recently used key.
- `create_cache(size)`.
- The template helpers `cycler(...)` and `joiner(sep)`.
- The autoescape policy `select_autoescape`.
- The per-frame variable tracker `Symbols`. It maps template names to identifiers
  `l_<level>_<name>` and records how each identifier is loaded.
- From the code generator: `temporary_identifier` and the stack of macro
  parameters not yet assigned.
- `get_corresponding_lineno`.
- The output buffering of `TemplateStream`.

**Proxy-list scrapers of the `ipool` service.** These are `ipool/source.py`,
`ipool/ip_source.py` and the two decorators of `ipool/config.py`:

- `return_none_when_exception` turns an exception into None.
- `repeat_while_return_none` calls again until the result is not None.
- Each scraper fetches a fixed list of pages. It retries each page until it comes
  back, then turns the rows of the page's tables into `http://host:port` URLs.
- Two sites hide the port as a class name of letters. `_decrypt` decodes it.
- The two scraper files differ in where errors go:
  - In `source.py`, a broken page contributes nothing.
  - In `ip_source.py`:
    - a row error escapes `get`;
    - `request` catches the fetch error itself;
    - four sites also skip port 80.

`dump_param_targets` is modelled as written. Its loop walks the enclosing frames but reads this frame's `loads` at every step. So the result holds this frame's parameter targets only.

**How state is modelled.** Objects whose methods update fields in place are Dafny
classes: `LRUCache`, `Cycler`, `Joiner`, `Symbols`, the code generator's
bookkeeping and `TemplateStream`. Each class has a validity predicate and an
abstract state function over its fields. Each method states its new state as a
function of the old one. The properties are lemmas about those functions.

Pure code becomes functions and lemmas. Loops in the source become methods with
loops, proved equal to a reference function:
- the row loops;
- the page loops;
- the `_decrypt` loop;
- the retry loop;
- the loops of `dump_stores`, `branch_update` and `_buffered_generator`.

**How the outside world is modelled.**
- The network is a finite sequence of fetch attempts. Each attempt is a failed
  connection, or a response with a status and a parsed page.
- A parsed page is the part of the BeautifulSoup tree that the scrapers query
  (`Document`, `Cell`).
- A Python exception is a `Raised` result. None is `Option.None`.

## Model

| member | source | states |
|---|---|---|
| `LruCache.SetKeepsConsistent` | libs/jinja2/dist/merge_all.py:516-529 | `cache[key] = value` keeps the cache invariant: the dictionary and the queue hold the same keys, each at most once, and never more than the capacity |
| `LruCache.SetStoresValue` | libs/jinja2/dist/merge_all.py:516-529 | after setting, the key maps to the new value and is the most recent; every other key keeps its value; the only key that can disappear is the evicted queue front |
| `LruCache.SetEvictsLeastRecent` | libs/jinja2/dist/merge_all.py:516-529 | inserting a new key into a full cache removes exactly the least recently used key; otherwise no key is lost |
| `LruCache.SetKeepsOrder` | libs/jinja2/dist/merge_all.py:516-529 | setting keeps the recency order of all other keys (without the evicted front) |
| `LruCache.GetTouchesOnly` | libs/jinja2/dist/merge_all.py:494-514 | a successful lookup keeps the invariant and the dictionary, makes the key the most recent and keeps the order of the other keys |
| `LruCache.DeleteRemovesKey` | libs/jinja2/dist/merge_all.py:531-544 | deleting a present key removes it from the dictionary and the queue, shrinks the cache by one and keeps the other keys' order |
| `LruCache.ItemsAreEntries` | libs/jinja2/dist/merge_all.py:546-550 | `items()` lists every entry exactly once, most recently used first |
| `LruCache.AttachedSetAgrees` | libs/jinja2/dist/merge_all.py:516-529 | on a cache built by the constructor, whose queue methods act on its one deque, `__setitem__` as written never raises and is the set transition the class implements |
| `LruCache.AttachedGetAgrees` | libs/jinja2/dist/merge_all.py:494-514 | on a cache built by the constructor, a lookup as written returns the value and is the get transition the class implements |
| `LruCache.CopyThenSetRaises` | libs/jinja2/dist/merge_all.py:443-448 | a copy of a full capacity-1 cache raises IndexError when a new key is set, where the intended copy evicts the old key |
| `LruCache.CopyThenOverwriteRaises` | libs/jinja2/dist/merge_all.py:443-448 | overwriting a key of a copy raises ValueError from `_remove` |
| `LruCache.CopyThenGetKeepsOrder` | libs/jinja2/dist/merge_all.py:443-448 | a lookup on a copy leaves the queue that `items()` reads unchanged, where the intended copy makes the key the most recent |
| `LruCache.SetDefaultBlocks` | libs/jinja2/dist/merge_all.py:457-469 | `setdefault` as written never returns: it holds the non-re-entrant `_wlock` when `__getitem__` acquires it again |
| `LruCache.LRUCache.constructor` | libs/jinja2/dist/merge_all.py:415-427 | a new cache is empty and consistent, with the given capacity |
| `LruCache.LRUCache.Copy` | libs/jinja2/dist/merge_all.py:443-448 | the copy as intended: a new cache with the same capacity, entries and recency order, whose methods then act on its own queue |
| `LruCache.LRUCache.Contains` | libs/jinja2/dist/merge_all.py:480-482 | membership in the dictionary agrees with membership in the queue |
| `LruCache.LRUCache.Len` | libs/jinja2/dist/merge_all.py:484-486 | the size equals the queue length and never exceeds the capacity |
| `LruCache.LRUCache.GetItem` | libs/jinja2/dist/merge_all.py:494-514 | returns the stored value and moves the key to the most recent end; raises KeyError and changes nothing for a missing key |
| `LruCache.LRUCache.Get` | libs/jinja2/dist/merge_all.py:450-455 | returns the stored value (touching the key) or the default (changing nothing) |
| `LruCache.LRUCache.SetItem` | libs/jinja2/dist/merge_all.py:516-529 | the new state is the set-transition of the old one, evicting the queue front when a new key arrives in a full cache |
| `LruCache.LRUCache.SetDefault` | libs/jinja2/dist/merge_all.py:457-469 | as documented: a present key keeps and returns its value and is touched; an absent key is set to the default as `__setitem__` does |
| `LruCache.LRUCache.Clear` | libs/jinja2/dist/merge_all.py:471-478 | afterwards the cache is empty with the same capacity |
| `LruCache.LRUCache.DelItem` | libs/jinja2/dist/merge_all.py:531-544 | removes a present key from the dictionary and queue; raises KeyError and changes nothing for a missing key |
| `LruCache.LRUCache.Items` | libs/jinja2/dist/merge_all.py:546-554 | every entry once, in most recently used first order |
| `LruCache.LRUCache.Values` | libs/jinja2/dist/merge_all.py:556-562 | the values in the order of `items()` |
| `LruCache.LRUCache.Keys` | libs/jinja2/dist/merge_all.py:564-574 | every cached key exactly once, position by position in most recently used first order |
| `LruCache.LRUCache.Reversed` | libs/jinja2/dist/merge_all.py:576-582 | the reverse of `keys()`: every cached key once, oldest first |
| `Environment.CreateCache` | libs/jinja2/dist/merge_all.py:4023-4029 | size 0 gives no cache, a negative size an empty unbounded dict, a positive size an empty LRU cache of that capacity |
| `Runtime.PosAfterIsMod` | libs/jinja2/dist/merge_all.py:694-698 | after `k` calls of `next()` since a reset, the position is `k mod n` |
| `Runtime.NewCycler` | libs/jinja2/dist/merge_all.py:679-683 | RuntimeError exactly when no items are given; otherwise a new cycler at position 0 |
| `Runtime.Cycler.constructor` | libs/jinja2/dist/merge_all.py:679-683 | a cycler over the given items starts at position 0 |
| `Runtime.Cycler.Reset` | libs/jinja2/dist/merge_all.py:685-687 | the position goes back to 0 |
| `Runtime.Cycler.Current` | libs/jinja2/dist/merge_all.py:689-692 | the current item is the one at index (calls since reset) mod n |
| `Runtime.Cycler.Next` | libs/jinja2/dist/merge_all.py:694-700 | the `k`-th call after a reset returns item `k mod n` and advances cyclically |
| `Runtime.JoinerJoins` | libs/jinja2/dist/merge_all.py:703-714 | calling a fresh joiner before each item and concatenating builds `sep.join(items)` |
| `Runtime.Joiner.constructor` | libs/jinja2/dist/merge_all.py:706-708 | a new joiner, with the separator `", "` unless one is given, has not been called |
| `Runtime.Joiner.Call` | libs/jinja2/dist/merge_all.py:710-714 | the empty string on the first call, the separator on every later one |
| `Autoescape.SelectAutoescape` | libs/jinja2/dist/merge_all.py:593-634 | each extension becomes the pattern `'.'` + the extension without leading dots, lower-cased; the two defaults are kept; the arguments default as in the source |
| `Autoescape.Pattern` | libs/jinja2/dist/merge_all.py:631-634 | a pattern always starts with a dot |
| `Autoescape.DecideNamed` | libs/jinja2/dist/merge_all.py:635-643 | no name gives the string default; an enabled suffix wins over a disabled one; a disabled suffix gives false; a name matching neither gives the default |
| `Autoescape.DecideIgnoresCase` | libs/jinja2/dist/merge_all.py:638 | the decision does not depend on the letter case of the template name |
| `Autoescape.PatternNormalises` | libs/jinja2/dist/merge_all.py:631-634 | an extension with a leading dot, or in other letter case, gives the same pattern |
| `Autoescape.EnabledExtensionEscapes` | libs/jinja2/dist/merge_all.py:631-640 | a template named `<anything>.<ext>` for an enabled extension is escaped, whatever its case |
| `Autoescape.DisabledExtensionDoesNotEscape` | libs/jinja2/dist/merge_all.py:631-642 | a name ending in `.<ext>` for a disabled extension, matching no enabled pattern, is not escaped |
| `Autoescape.LowerIdempotent` | libs/jinja2/dist/merge_all.py:638 | lower-casing twice is lower-casing once |
| `Autoescape.DefaultPatterns` | libs/jinja2/dist/merge_all.py:593-596 | the default extensions give exactly the suffix patterns `.html`, `.htm` and `.xml` |
| `Autoescape.DefaultPolicy` | libs/jinja2/dist/merge_all.py:593-596 | with the default arguments, templates from strings and names ending in `.html`, `.htm` or `.xml` in any case are escaped, and no other name is |
| `Idtracking.IdentInjective` | libs/jinja2/dist/merge_all.py:1129-1131 | two identifiers `l_<level>_<name>` are equal only for the same level and name |
| `Idtracking.FindLoadFirst` | libs/jinja2/dist/merge_all.py:1136-1140 | a load is found exactly when some frame of the chain has one for the target, and it is the innermost such frame's load |
| `Idtracking.FindRefFirst` | libs/jinja2/dist/merge_all.py:1142-1146 | a reference is found exactly when some frame of the chain has the name, and it is the innermost such frame's reference |
| `Idtracking.FindRefIsIdent` | libs/jinja2/dist/merge_all.py:1129-1146 | in a valid chain a found reference is the name's identifier at the level of the innermost frame that has it |
| `Idtracking.StoreDefines` | libs/jinja2/dist/merge_all.py:1163-1179 | a store records the name; a first store aliases an enclosing frame's reference if there is one, else marks the name undefined; a known name keeps its reference and load; afterwards the name resolves to this frame's identifier |
| `Idtracking.DeclareDefines` | libs/jinja2/dist/merge_all.py:1181-1183 | a declared parameter is stored, referenced by this frame's identifier and loaded as a parameter |
| `Idtracking.LoadResolves` | libs/jinja2/dist/merge_all.py:1185-1188 | loading a name no frame knows makes it resolve from the context; loading a known name changes nothing; afterwards the name has a reference |
| `Idtracking.StoreCountPositive` | libs/jinja2/dist/merge_all.py:1191-1196 | a name is counted by some branch exactly when some branch stores it |
| `Idtracking.MergedFacts` | libs/jinja2/dist/merge_all.py:1198-1201 | merging branches of the same level keeps the frame well formed; its stores become the union |
| `Idtracking.BranchUpdateRelinks` | libs/jinja2/dist/merge_all.py:1190-1214 | it ensures that the stores become the union of the branches' stores, that a name stored by only some branches is loaded from the enclosing frame's reference if there is one and by name otherwise, and that every other name keeps the load of the merged branches, which is the last branch's load when that branch loads it |
| `Idtracking.ChainStoresHaveRefs` | libs/jinja2/dist/merge_all.py:1216-1224 | in a valid chain every stored name has a reference (the `find_ref` in `dump_stores` never returns None) |
| `Idtracking.AddStores` | libs/jinja2/dist/merge_all.py:1220-1222 | one frame's round of `dump_stores` adds exactly that frame's new stored names, each with its reference from the innermost frame |
| `Idtracking.Symbols.constructor` | libs/jinja2/dist/merge_all.py:1115-1123 | level 0 at the root and one more than the parent's below it, with empty tables |
| `Idtracking.Symbols.CopyOf` | libs/jinja2/dist/merge_all.py:1155-1161 | the copy has the same level, parents and table contents |
| `Idtracking.Symbols.FindLoad` | libs/jinja2/dist/merge_all.py:1136-1140 | None exactly when no frame has a load for the target; otherwise the load of the innermost frame that has one, this frame first |
| `Idtracking.Symbols.Ref` | libs/jinja2/dist/merge_all.py:1142-1153 | AssertionError exactly when no frame knows the name; otherwise the reference of the innermost frame that knows it, this frame first |
| `Idtracking.Symbols.DefineRef` | libs/jinja2/dist/merge_all.py:1129-1134 | the name gets this level's identifier and, when given, its load instruction |
| `Idtracking.Symbols.Store` | libs/jinja2/dist/merge_all.py:1163-1179 | the frame becomes the store-transition of the old one and stays valid |
| `Idtracking.Symbols.DeclareParameter` | libs/jinja2/dist/merge_all.py:1181-1183 | returns this level's identifier of the name; the frame becomes the declare-transition of the old one |
| `Idtracking.Symbols.Load` | libs/jinja2/dist/merge_all.py:1185-1188 | the frame becomes the load-transition of the old one and stays valid |
| `Idtracking.Symbols.DumpStores` | libs/jinja2/dist/merge_all.py:1216-1224 | the keys are every name stored in this frame or an enclosing one; each maps to its reference as found from this frame |
| `Idtracking.Symbols.DumpParamTargets` | libs/jinja2/dist/merge_all.py:1226-1234 | the result is this frame's parameter targets only, whatever the enclosing frames hold |
| `Idtracking.Symbols.CountStores` | libs/jinja2/dist/merge_all.py:1191-1196 | counts every name some branch stores and this frame does not, by how many branches store it |
| `Idtracking.Symbols.MergeBranches` | libs/jinja2/dist/merge_all.py:1198-1201 | each branch's refs, loads and stores are merged in, in order, later branches winning |
| `Idtracking.Symbols.RelinkPartial` | libs/jinja2/dist/merge_all.py:1203-1214 | every counted name that not all branches store gets the branch load; nothing else changes |
| `Idtracking.Symbols.BranchUpdate` | libs/jinja2/dist/merge_all.py:1190-1214 | the frame becomes the branch-update transition of the old one and stays valid |
| `Codegen.TempNameInjective` | libs/jinja2/dist/merge_all.py:1676-1679 | temporary identifiers handed out at different counts differ |
| `Codegen.TempNameIsNoIdent` | libs/jinja2/dist/merge_all.py:1676-1679 | a temporary identifier never equals a frame variable's identifier |
| `Codegen.IssuedIsNew` | libs/jinja2/dist/merge_all.py:1676-1679 | the next temporary identifier was not handed out before |
| `Codegen.CodeGenerator.constructor` | libs/jinja2/dist/merge_all.py:1676-1679 | a new generator has handed out no identifier and tracks no parameters |
| `Codegen.CodeGenerator.TemporaryIdentifier` | libs/jinja2/dist/merge_all.py:1676-1679 | returns `t_<n>` for the incremented counter, a name this generator never handed out before |
| `Codegen.PopUndoesPush` | libs/jinja2/dist/merge_all.py:1973-1984 | popping what was pushed restores the parameter stack |
| `Codegen.PushedUndeclared` | libs/jinja2/dist/merge_all.py:1973-1997 | right after a push, exactly the pushed targets are undeclared |
| `Codegen.MarkedStored` | libs/jinja2/dist/merge_all.py:1986-1997 | a stored parameter is no longer undeclared; other targets keep their status; the depth is unchanged |
| `Codegen.MarkThenPop` | libs/jinja2/dist/merge_all.py:1982-1991 | marking only touches the innermost set, so popping afterwards gives the same stack |
| `Codegen.CodeGenerator.PushParameterDefinitions` | libs/jinja2/dist/merge_all.py:1973-1980 | pushes the frame's parameter targets |
| `Codegen.CodeGenerator.PopParameterDefinitions` | libs/jinja2/dist/merge_all.py:1982-1984 | drops the innermost set; IndexError on an empty stack, which is left unchanged |
| `Codegen.CodeGenerator.MarkParameterStored` | libs/jinja2/dist/merge_all.py:1986-1991 | removes the target from the innermost set, if there is one |
| `Codegen.CodeGenerator.ParameterIsUndeclared` | libs/jinja2/dist/merge_all.py:1993-1997 | true exactly when there is an innermost set and it holds the target |
| `Environment.GetCorrespondingLineno` | libs/jinja2/dist/merge_all.py:5071-5078 | the template line of the last pair whose code line is not past `lineno`, or 1 when there is none |
| `Environment.ChunkLenCount` | libs/jinja2/dist/merge_all.py:5210-5214 | a chunk holds `size` non-empty items when there are that many, and all the remaining items otherwise |
| `Environment.BufferedConcat` | libs/jinja2/dist/merge_all.py:5203-5220 | buffering changes how the output is split, never what it says |
| `Environment.BufferedNonEmpty` | libs/jinja2/dist/merge_all.py:5215-5218 | every chunk yielded is non-empty |
| `Environment.BufferedCount` | libs/jinja2/dist/merge_all.py:5203-5220 | `n` non-empty items give `ceil(n / size)` chunks |
| `Environment.ReadChunk` | libs/jinja2/dist/merge_all.py:5210-5214 | reads up to and including the `size`-th non-empty item, or to the end; counts the non-empty items read |
| `Environment.TemplateStream.constructor` | libs/jinja2/dist/merge_all.py:5198-5201 | a new stream is unbuffered and yields the generator's items |
| `Environment.TemplateStream.DisableBuffering` | libs/jinja2/dist/merge_all.py:5198-5201 | afterwards the stream yields the remaining items one by one |
| `Environment.TemplateStream.EnableBuffering` | libs/jinja2/dist/merge_all.py:5222-5228 | a size of 1 or less raises ValueError and changes nothing; otherwise the stream yields chunks of the remaining output; the size defaults to 5 |
| `Environment.TemplateStream.Next` | libs/jinja2/dist/merge_all.py:5203-5234 | returns the first element of what the stream will yield, and the rest remains; None (StopIteration) exactly at the end |
| `Environment.TemplateStream.FillBuffer` | libs/jinja2/dist/merge_all.py:5209-5217 | takes the next chunk off the front of the pending items; a short chunk means the template is done |
| `PoolConfig.ReturnNoneWhenException` | ipool/config.py:17-25 | the guarded call never raises; a return passes through; an exception becomes None |
| `PoolConfig.Guarded` | ipool/config.py:17-25 | the decorator is applied to each call in turn |
| `PoolConfig.RepeatWhileReturnNone` | ipool/config.py:28-35 | the retry loop ends as the reference scan of the calls does |
| `PoolConfig.RepeatSkip` | ipool/config.py:30-32 | skipping leading None results only shifts the call count |
| `PoolConfig.RepeatFirstResult` | ipool/config.py:28-35 | the result is the first non-None return, all earlier calls having returned None; the first exception before it escapes; running out means every call returned None |
| `PoolConfig.GuardedNeverPropagates` | ipool/config.py:17-35 | with `return_none_when_exception` inside, no exception gets through, and the calls run out only when every call raised or returned None |
| `PoolSource.Requested` | ipool/source.py:29-38 | the undecorated request returns the body exactly for a status-200 response and raises otherwise |
| `PoolSource.Calls` | ipool/source.py:29-38 | the undecorated request on each attempt in turn |
| `PoolSource.DecoratedRequest` | ipool/source.py:27-29 | the request is `repeat_while_return_none` around `return_none_when_exception` around the fetch |
| `PoolSource.RequestFirstSuccess` | ipool/source.py:27-38 | the decorated request never raises; it returns the body of the first status-200 attempt after using every attempt up to it; it runs out only when no attempt succeeds |
| `PoolSource.RequestPage` | ipool/source.py:27-38 | the decorated request, built from the two decorators |
| `PoolSource.ExtractedRule` | ipool/source.py:46-53 | a page contributes the URLs of its accepted rows when its rows exist and no row test raises, and nothing otherwise |
| `PoolSource.ExtractPage` | ipool/source.py:58-60 | `_extract(html) or []` with the row loop written out |
| `PoolSource.Numbered` | ipool/source.py:57-58 | the page URLs `lo` to `hi - 1`, in order |
| `PoolSource.FetchedShape` | ipool/source.py:57-61 | the page loop stops only before its last page, uses no more attempts than given, and uses them all when it stops |
| `PoolSource.Get` | ipool/source.py:55-61 | the harvest of the site's pages; the pages whose body came back are every page on success, and the pages before the one the attempts ran out on when it gives up |
| `PoolSource.GetPages` | ipool/source.py:56-61 | the page loop ends as the reference harvest of those pages does |
| `PoolSource.ServePage` | ipool/source.py:58-60 | one page comes back or the fetch ends; a page that comes back adds its URLs after the earlier pages' |
| `PoolSource.HarvestNeverCrashes` | ipool/source.py:55-61 | errors inside a page never escape `get`: it collects every page or runs out of attempts on one |
| `PoolSource.RetryIsTransparent` | ipool/source.py:27-38 | a failed attempt only costs one more attempt; the pages fetched are the same |
| `PoolSource.RetryKeepsUrls` | ipool/source.py:55-61 | a failed attempt leaves the harvested URLs unchanged |
| `PoolSource.FetchedFirstAttempts` | ipool/source.py:57-60 | when every page comes back on its first attempt, the loop takes one attempt per page and gets the bodies in order |
| `PoolSource.HarvestInPageOrder` | ipool/source.py:55-61 | when every page comes back first time, `get` returns the pages' URLs concatenated in page order |
| `ProxyPage.CollectRows` | ipool/source.py:48-53 | the row loop equals the reference scan: the URLs of the accepted rows in order, or the first raised error |
| `ProxyPage.CollectFailStops` | ipool/source.py:49-52 | once a prefix of the rows' verdicts fails, the whole loop raises the same error |
| `ProxyPage.CollectChoices` | ipool/source.py:49-53 | over the rows' verdicts, the loop raises exactly when some verdict fails, with the first failing one's error, and otherwise returns the accepted URLs in order |
| `ProxyPage.ScanChoices` | ipool/source.py:49-53 | the loop raises exactly when some row's test raises, with the first such row's error; otherwise it returns one URL per accepted row in row order |
| `ProxyPage.AcceptedUrlsCount` | ipool/source.py:49-53 | there are exactly as many URLs as accepted verdicts, and each comes from an accepted verdict |
| `ProxyPage.EmittedCount` | ipool/source.py:49-53 | there are exactly as many URLs as accepted rows, and each comes from an accepted row |
| `ProxyPage.XiCiRule` | ipool/source.py:49-52 | XiCi keeps a row exactly when its sixth cell reads HTTP and its second and third cells are ASCII, as `http://<second>:<third>`; a non-empty row of fewer than six cells raises IndexError; a row with HTTP and a non-ASCII address or port raises UnicodeEncodeError |
| `ProxyPage.SixSixRule` | ipool/source.py:72-76 | SixSix skips empty rows and the header row; a one-cell row raises IndexError; any other row is kept as `http://<first>:<second>` when both texts are ASCII and raises UnicodeEncodeError otherwise |
| `ProxyPage.DecodedPortRule` | ipool/source.py:104-113 | for a row of one cell or more whose port decodes, QuanMin skips port 80 and otherwise writes the shown address with the decoded port, raising UnicodeEncodeError when the address is not ASCII |
| `ProxyPage.Data5URule` | ipool/ip_source.py:230-236 | Data5U skips a row whose port decodes to None; port 80 is skipped only by the retrying scraper; any other kept port is written after the address, raising UnicodeEncodeError when the address is not ASCII |
| `ProxyPage.YunDaiLiKeepsHttps` | ipool/source.py:190-194 | the HTTPS test compares a tag with a string and never holds, so every row of four cells or more is kept, except port 80 rows with the extra test, and a kept row with a non-ASCII address or port raises UnicodeEncodeError |
| `ProxyPage.PlainRule` | ipool/ip_source.py:159-163 | CooBoBo and YunHai keep every row of two cells or more, except port 80 rows with the extra test, and a kept row with a non-ASCII address or port raises UnicodeEncodeError |
| `ProxyPage.QuanMinSkipsGEA` | ipool/source.py:111-112 | a port class spelling 80 ("GEA") is skipped by QuanMin |
| `ProxyPage.AsciiChars` | ipool/source.py:52-52 | a text counts as ASCII exactly when every character is below 128, the test Python 2's implicit encoding of a unicode text applies |
| `ProxyPage.IntToStringAscii` | ipool/source.py:111-113 | the text of a decoded port is always ASCII, so only the address text can make the URL's formatting raise |
| `PortCipher.Find` | ipool/source.py:98 | `str.find` of a character: its first index, or -1 exactly when it does not occur |
| `PortCipher.FindInAlphabet` | ipool/source.py:95-98 | in `ABCDEFGHIZ`, A to H stand for 0 to 7, I for 8, Z for 9; every other character is not found |
| `PortCipher.Decrypt` | ipool/source.py:93-100 | the decoding loop equals the reference decoding: None for None, else `int(dst) >> 3` or ValueError |
| `PortCipher.DecryptLetters` | ipool/source.py:93-100 | a non-empty string of alphabet letters decodes to the number it spells, divided by 8, rounded down |
| `PortCipher.DecryptExample` | ipool/source.py:93-100 | "GEA" decodes to port 80 |
| `PortCipher.DecryptRaises` | ipool/source.py:97-99 | decoding raises ValueError exactly when the class is empty or a letter after the first is outside the alphabet |
| `PortCipher.LeadingMissNegative` | ipool/source.py:97-99 | an unknown first letter followed by letters gives a negative port instead of an error |
| `PortCipher.SpelledLetters` | ipool/source.py:97-98 | for alphabet letters the digit string has one digit per letter, and its value is the number the letters spell |
| `Decimal.ParseIntOfIntToString` | ipool/source.py:98-99 | `int(str(i)) == i` |
| `Decimal.IntToStringInjective` | ipool/source.py:98 | distinct integers are written as distinct strings |
| `Decimal.ParseInt` | ipool/source.py:99 | `int` succeeds exactly on an optional sign followed by at least one digit |
| `IpSource.IpRequest` | ipool/ip_source.py:28-37 | None when the fetch fails or the status is not 200; the body otherwise |
| `IpSource.IpRequestIsGuarded` | ipool/ip_source.py:28-37 | catching the error inside `request` gives what `return_none_when_exception` gives around the other scrapers' request |
| `IpSource.FetchPage` | ipool/ip_source.py:68-70 | the retry loop ends as the decorated request of the other scrapers does, with the body of the first status-200 attempt |
| `IpSource.ScanPage` | ipool/ip_source.py:72-76 | one page's unguarded row loop: the site's rows, then the URLs or the error that escapes |
| `IpSource.StyledPages` | ipool/ip_source.py:174-176 | the nested style and page loops visit (styles) × (pages) URLs |
| `IpSource.StyledPagesAreStyles` | ipool/ip_source.py:172-206 | the nested loops of YunDaiLi and YunHai fetch styles 1 to 4 one after another, 28 and 40 pages |
| `IpSource.Get` | ipool/ip_source.py:45-57 | the harvest of the site's pages, XiCi's being the "nn" pages only; the pages whose body came back are every page on success, the pages before the one the attempts ran out on when it gives up, and the pages up to and including the one whose row loop raised when it crashes |
| `IpSource.GetPages` | ipool/ip_source.py:65-77 | the page loop ends as the reference harvest does: the first page whose row loop raises ends it with that error, after the bodies of the pages up to and including that one came back |
| `IpSource.ServePage` | ipool/ip_source.py:68-76 | one page comes back or the fetch ends; a page that comes back runs its row loop after the earlier pages' |
| `IpSource.IpRetryIsTransparent` | ipool/ip_source.py:68-70 | a failed attempt only costs one more attempt; the harvest is the same |
| `IpSource.SameTestsAgree` | ipool/ip_source.py:45-111 | for XiCi, SixSix and QuanMin, whose row tests are the same in both scrapers, a run in which no row loop raises ends as the other scraper's `get` does |

## Left out

- The cache's lock is modelled only in `LruCache.SetDefaultAsWritten`, to show that `setdefault` as written waits forever on it. The class methods leave it out: for every other method, taking and releasing it around the body changes nothing in one thread, and concurrency is not modelled.
- `LruCache.LRUCache.SetDefault`: states the documented behaviour, which the source as written never reaches. `setdefault` acquires `_wlock` (line 461) and then calls `self[key]`, whose `__getitem__` acquires it again (line 500). `_wlock` is a `threading.Lock` (lines 117 and 426), which is not re-entrant, so the call blocks forever. See Findings.
- `LruCache.LRUCache.Copy`: the class's copy is the intended one. The source's copy, `LruCache.CopyAsWritten`, leaves the copy's bound queue methods on a discarded deque. It is modelled by value only, not as a class. See Findings.
- `LruCache.SetAsWritten`: when a bound queue method raises, the model drops the changes made before the exception.
- `LruCache.LRUCache.Get` and `LruCache.LRUCache.SetDefault`: the default value is a parameter without a default. In the source it defaults to None. The cache is generic in its value type, and a Dafny type parameter has no None.
- The pickling support is not modelled (`__getstate__`, `__setstate__`, `__getnewargs__`), because it is serialisation. `__repr__` is left out too.
- `LruCache.LRUCache.constructor`: requires a capacity of at least 1. `create_cache` builds a cache only for a positive size. A cache built directly with capacity 0 raises when the first key is set, and that path is not modelled.
- The rest of `merge_all.py` is outside this model: the template compiler and the visitors that call `Symbols` (`analyze_node`, `RootVisitor`), the lexer, the parser, the sandbox and the filters. `htmlsafe_json_dumps` is left out as well, because it is JSON serialisation.
- `Idtracking.Symbols.constructor`: the parent frames are a snapshot of their state when the child is made. A later change to a parent object is not seen by the child, so the aliasing of Python objects is not modelled.
- `Idtracking.Symbols.constructor`: requires the parent to satisfy the frame invariant. Every frame built through this model does.
- `Autoescape.Lower`: lower-cases only the ASCII letters A to Z. Python's `str.lower` also maps other Unicode letters.
- `Decimal.ParseInt`: does not handle the white space that Python's `int()` strips. The digit strings `_decrypt` builds never contain white space.
- `TemplateStream.dump` (writing to a file) is left out, because it is I/O. `__iter__` is left out too, and so is mixing item-by-item and chunked reads of one generator after buffering was switched on.
- The database query that picks a proxy in `source.py`'s `request` is left out, with its random choice. So are `time.sleep`, `print` and the request headers. The proxy and the headers go with the fetch and can change whether an attempt succeeds and what it returns. The model leaves each attempt's outcome unconstrained, so their effect is part of the given `Attempt` sequence. A failing database query raises inside the decorated `request` like a failed fetch, and is a `Failure` attempt.
- `ProxyPage.Formatted`: a cell text is unicode and the URL template a Python 2 byte string, so formatting encodes the text with the process's default encoding, taken here to be ASCII. A process that changes the default encoding with `sys.setdefaultencoding` (as the service's `server.py` does) would accept other characters, and that case is not modelled.
- The HTML parser is not modelled. A page is given as the parts of the parsed tree that the scrapers query.
- `PoolSource.Get`, `PoolSource.GetPages` and `IpSource.GetPages`: the retry loops of the source never end while a page keeps failing. The model reads from a finite sequence of attempts, and running out of it is the `GaveUp` / `Exhausted` outcome.
- `IpSource.StyledPages`: the two nested style and page loops are modelled as one flat page list of the same URLs in the same order.
- `IpSource.Get`: XiCi's `return` inside its style loop is modelled as fetching the "nn" pages only, which is what the loop does.
- `PoolSource.PageUrls`: the style of XiCi, YunDaiLi and YunHai is taken as the string `format` writes for it.
- The scrapers' `__init__` methods, the commented-out scrapers, and the rest of the `ipool` service (the model, producer and server) are outside this model.

## Findings

| source | as written | input that shows it | evidently intended | confidence | as-written member | corrected member |
|---|---|---|---|---|---|---|
| libs/jinja2/dist/merge_all.py:443-448 | `copy()` builds the new cache through `__init__`, whose `_postinit` binds `_append`, `_popleft` and `_remove` to the constructor's empty deque; `rv._queue = deque(self._queue)` then replaces `_queue` without rebinding them | `c = LRUCache(1); c['a'] = 1; d = c.copy(); d['b'] = 2` raises IndexError; `d['a'] = 2` raises ValueError; in a capacity-2 copy holding a, b, `d['a']` leaves `d.items()` with b first | the copy behaves as an independent cache with the same entries and order | not executed | `LruCache.CopyAsWritten`, `LruCache.CopyThenSetRaises`, `LruCache.CopyThenOverwriteRaises`, `LruCache.CopyThenGetKeepsOrder` | `LruCache.LRUCache.Copy`, with `LruCache.AttachedSetAgrees` and `LruCache.AttachedGetAgrees` |
| libs/jinja2/dist/merge_all.py:457-469 | `setdefault` holds `_wlock`, a non-re-entrant `threading.Lock`, while `self[key]` acquires it again at line 500 | `LRUCache(1).setdefault('a', 1)` in a single thread never returns | `setdefault` returns the present value, or stores and returns the default | not executed | `LruCache.SetDefaultAsWritten`, `LruCache.SetDefaultBlocks` | `LruCache.LRUCache.SetDefault` |

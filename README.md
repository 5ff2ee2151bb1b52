# garden: the card-stack layout engine and its companions, in Dafny

This project models the logic core of a personal portfolio site ("garden"), a React/Astro
application. The central piece is the card-stack interaction: a row (desktop) or column
(mobile) of overlapping panels that fan out when opened, peek on hover and open or close
by click or drag. Around it sit several small self-contained pieces of logic:

- the content-type filter mapping;
- the clock-of-clocks digit tables and time formatting;
- a bounded counter and a boolean sidebar store;
- the widget configuration schema;
- the canonical-works content loader;
- an image-rotation widget;
- a cursor-following label.

One Dafny module models each source file, plus two support modules:

| module | file | models |
|---|---|---|
| `Positions` | positions.dfy | `getStackPositions` and `getStackPeekOffsets`. Each is a specification function, plus a method over an `array` with the source's loops, proved equal to it. |
| `Stack` | stack.dfy | The stack controller: mobile positions, how base and peek offsets combine, and the `activeIndex`/`peekedIndex` transitions (class `StackController`). |
| `StackCard` | card.dfy | The interaction card: when drag is enabled, and the close/open/bounce drag classifier. |
| `ProjectCard` | project_card.dfy | The project card: the same classifier, the `isReady` animation target, the background class and the page label. |
| `ContentTypes` | content_types.dfy | The content-type table, the filter list and the URL value mappings. |
| `Clock` | clock.dfy | `handleMap`, `digitMap`, `getGMTPlus7Time` and `formatTimeToDigits`. |
| `Counter` | counter.dfy | The 0..999 counter (class `CounterState`) and its 3-digit display. |
| `SidebarStore` | sidebar_store.dfy | The sidebar store's three booleans and four actions (class `Store`). |
| `WidgetsSchema` | widgets_schema.dfy | The widget schema as a parser returning the value or its issues, and as a validity predicate. |
| `WorksLoader` | works_loader.dfy | The canonical path filter, the load loop over an entry store (I/O as parameters), and the work schema with its defaults. |
| `ImageSwapMedia` | image_swap_media.dfy | The image filter, the rotation timer and index (class `SwapMedia`), the aspect map and the loading flag. |
| `CursorFollower` | cursor_follower.dfy | Type parsing, the types line, and the visibility and tracking-pause rule (class `Follower`). |
| `JsString` | jsstring.dfy | The JavaScript string built-ins the sources use: `toString`, `padStart`, `split`, `join`, `trim`, `toLowerCase`. |
| `Wrappers` | wrappers.dfy | `Option` and `Result`. |

Pixel arithmetic is on `real`, so `viewportWidth * 0.2` is exact. Time is whole
milliseconds since the epoch, on `int`.

Notes on the code as modelled:

- No handler adds or removes cards; the stack's card list is fixed.
- `onMouseEnter`/`onMouseLeave` set `peekedIndex` on both orientations. On mobile the peek vector is all zeros, so hovering there has no visible effect (`Stack.StackController.HoverEnter`, `Stack.DynamicOffsets`).
- The width cap covers only the window `activeIndex - maxCardsOpen < i <= activeIndex` (`Positions.CapClamp`).
- With overflow, cards 0..3 get the bare base before the cap, and only cards 0..2 are sure to keep it (`Positions.OverflowLayout`, `Positions.OverflowFixture`).

## Model

| member | source | states |
|---|---|---|
| Positions.ApproachingOffset | src/interactions/page-stack/positions.ts:17-32 | The approaching offset is an entry of the table the card reads (collapsed, open or closed). It lies in [0, 180], and it is 0 exactly when the card is at or past the table's last entry. |
| Positions.Increment | src/interactions/page-stack/positions.ts:34-56 | The increment is a multiple of 30, and never negative for a visible open card. |
| Positions.Position | src/interactions/page-stack/positions.ts:58-101 | An open card never sits left of `vw/5`. A collapsed card is on screen iff its index is below 4. A closed card is on screen iff its segment index is below `maxCardsClosed`, and off screen always when that is not positive. |
| Positions.StackPositions | src/interactions/page-stack/positions.ts:103-182 | `getStackPositions` has exactly `total` entries, and none when `total` is 0. |
| Positions.GetStackPositions | src/interactions/page-stack/positions.ts:103-182 | The array filled by the source's loops, returned as a sequence, equals `StackPositions`. |
| Positions.FillBasePositions | src/interactions/page-stack/positions.ts:115-156 | The collapsed loop, or the open and closed loops, fill a fresh array with exactly the base positions. |
| Positions.CapPositions | src/interactions/page-stack/positions.ts:159-179 | The descending cap loop leaves the array equal to the cap applied from `activeIndex` down to 0 on its old contents. |
| Positions.CapFrom | src/interactions/page-stack/positions.ts:163-178 | The cap keeps the number of cards. |
| Positions.CapFromFacts | src/interactions/page-stack/positions.ts:163-178 | The cap never lowers a card. It changes only cards in the window `activeIndex - maxCardsOpen < k <= activeIndex`. Each capped card ends at `max(own, reference - width)`, where the reference is the already-capped next card, or the viewport edge for the last card. |
| Positions.CapRaises | src/interactions/page-stack/positions.ts:170-176 | Each turn of the cap loop can only raise a position. |
| Positions.CapKeeps | src/interactions/page-stack/positions.ts:163-166 | Cards outside the window, and cards below the loop's current index, are left unchanged. |
| Positions.CapLeaves | src/interactions/page-stack/positions.ts:167-177 | Each card in the window ends at `max(own, reference - width)`. |
| Positions.CollapsedLayout | src/interactions/page-stack/positions.ts:117-128 | With `activeIndex = -1`, card `i` sits at `vw - [180,90,30,0][min(i,3)] - (4 - i)*30`, and the cap does not run. |
| Positions.CollapsedIncreasing | src/interactions/page-stack/positions.ts:117-128 | Collapsed positions strictly increase with the index. |
| Positions.OpenLayout | src/interactions/page-stack/positions.ts:130-142 | Without overflow, open card `i` sits before the cap at `vw/5 + [80,40,20,10,0][min(active-i,4)] + 30i`. |
| Positions.OpenIncreasing | src/interactions/page-stack/positions.ts:130-142 | Without overflow, the open cards strictly increase with the index before the cap. |
| Positions.OverflowLayout | src/interactions/page-stack/positions.ts:70-79 | With more open cards than `maxCardsOpen`, every open card below `numOpen - maxCardsOpen + 1` is exactly at `vw/5`. Those at or below `activeIndex - maxCardsOpen` keep it after the cap. |
| Positions.ClosedLayout | src/interactions/page-stack/positions.ts:144-156 | Closed card at segment index `j` sits at `vw - [20,0][min(j,1)] - m*30`, with `m = maxCardsClosed - j`, or `-1 - j` when `maxCardsClosed <= 0`. The cap never moves it. |
| Positions.CapSkipped | src/interactions/page-stack/positions.ts:159-162 | Without a width for every card, or with nothing open, the result is the base layout. |
| Positions.CapClamp | src/interactions/page-stack/positions.ts:159-179 | After the cap, every card is at or above its base position. Each card in the window is at `max(base, reference - width)`, so it is at least `reference - width`. Every other card is at its base. |
| Positions.OverflowFixture | src/interactions/page-stack/positions.ts:70-79 | 8 cards, 5 visible open, card 7 active: cards 0, 1 and 2 all sit exactly at `vw/5`. |
| Positions.Zeros | src/interactions/page-stack/positions.ts:189 | A zero vector of the given length. |
| Positions.ShiftOpenCardsAt | src/interactions/page-stack/positions.ts:199-202 | The loop from `i` down to `hovered + 1` sets each card `k` in `(hovered, i]` to its table offset and leaves every other entry alone. |
| Positions.PeekOffsets | src/interactions/page-stack/positions.ts:184-206 | The peek vector has exactly `numCards` entries. |
| Positions.GetStackPeekOffsets | src/interactions/page-stack/positions.ts:184-206 | The array filled by the source's loop equals `PeekOffsets`. |
| Positions.PeekIdle | src/interactions/page-stack/positions.ts:191-193 | With no hover, or the active card hovered, every delta is 0. |
| Positions.PeekClosedCard | src/interactions/page-stack/positions.ts:194-197 | Hovering a closed card gives that card -20 and every other card 0. |
| Positions.PeekOpenCards | src/interactions/page-stack/positions.ts:198-202 | Hovering an open card within 5 of the active one gives each card `i` in `(hovered, active]` the offset `[20,30,40,50,60][active - i]`, and every other card 0. |
| Positions.PeekOffsetsAsWritten | src/interactions/page-stack/positions.ts:184-206 | The peek vector read with the unclamped table index has `numCards` entries, each possibly undefined. |
| Positions.PeekTableOverrun | src/interactions/page-stack/positions.ts:199-202 | With 7 cards, card 6 active and card 0 hovered, card 1's offset as written is undefined. |
| Positions.PeekAsWrittenAgrees | src/interactions/page-stack/positions.ts:184-206 | Whenever the hovered card is within 5 of the active one, the as-written offsets are defined and equal the clamped ones. |
| Stack.MobilePositions | src/interactions/page-stack/Stack.tsx:38-57 | The mobile rule gives one position per card. |
| Stack.MobileIdleLayout | src/interactions/page-stack/Stack.tsx:35-45 | Mobile and idle: card 0 sits at `height - 80` and every other card at `height + 100`. |
| Stack.MobileActiveLayout | src/interactions/page-stack/Stack.tsx:47-55 | Mobile with card `k` active: cards `i <= k` sit at 0, card `k+1` at `height - 80`, the rest at `height + 100`. So on a screen taller than 80, exactly the cards up to `k+1` are visible. |
| Stack.BasePositions | src/interactions/page-stack/Stack.tsx:37-67 | The base layout has one entry per card. |
| Stack.DynamicOffsets | src/interactions/page-stack/Stack.tsx:69-73 | One peek delta per card, all zero on mobile. |
| Stack.CardPositions | src/interactions/page-stack/Stack.tsx:119 | One coordinate per card. |
| Stack.CardPositionsCombine | src/interactions/page-stack/Stack.tsx:59-73 | On mobile a card's coordinate is the mobile rule alone. On desktop, a card in the cap window gets base plus peek, and its base is at least `reference - width`. |
| Stack.IsMobile | src/interactions/page-stack/Stack.tsx:33 | No contract of its own: the container is mobile below 768 px wide. What that switches is stated by `Stack.BasePositions`, `Stack.DynamicOffsets` and `Stack.CardPositionsCombine`. |
| Stack.ActiveAfterClickOutside | src/interactions/page-stack/Stack.tsx:79-86 | The result is -1 or the current card. The current card is kept iff the target is inside an info drawer, or nothing is open. |
| Stack.ActiveAfterRequestClose | src/interactions/page-stack/Stack.tsx:103-105 | One level down: from an open card, the result lies in `[-1, activeIndex)`. |
| Stack.ActiveAfterRequestOpen | src/interactions/page-stack/Stack.tsx:107-109 | One level up below the last card. At or past the last card it stays at the last card, and it never exceeds it. |
| Stack.DragOutcome | src/interactions/page-stack/Stack.tsx:124-133 | A drag is acted on iff on mobile and the card is the active one or the next one. Only the active card can request close, and only when pulled down more than 120. Only the next card can request open, and only when pushed up more than 120. |
| Stack.ActiveAfterDrag | src/interactions/page-stack/Stack.tsx:103-133 | A drag closes one level when the active card is pulled down more than 120 on mobile. It opens one level when the next card is pushed up more than 120 on mobile. Otherwise `activeIndex` is unchanged. |
| Stack.DragScenario | src/interactions/page-stack/Stack.tsx:103-105 | Mobile, 3 cards, card 1 active: a 150 px pull leaves card 0 active. An 80 px pull bounces and card 1 stays active. |
| Stack.TransitionsStayInRange | src/interactions/page-stack/Stack.tsx:79-133 | Click outside, open, close (from an open card) and drag each keep `activeIndex` in `[-1, N-1]`. |
| Stack.StackController.constructor | src/interactions/page-stack/Stack.tsx:28-29 | Starts with `activeIndex = -1` and no hovered card. |
| Stack.StackController.CurrentPositions | src/interactions/page-stack/Stack.tsx:119 | One coordinate per card for the current state. |
| Stack.StackController.HandleCardClick | src/interactions/page-stack/Stack.tsx:93-101 | The clicked card becomes active on both orientations, so `-1 <= activeIndex < N` is kept. The state write is skipped on mobile when that card is already active. |
| Stack.StackController.HandleClickOutside | src/interactions/page-stack/Stack.tsx:79-86 | Collapses to -1 unless the target is inside an info drawer. |
| Stack.StackController.RequestClose | src/interactions/page-stack/Stack.tsx:103-105 | Decrements `activeIndex`; called only with a card open. |
| Stack.StackController.RequestOpen | src/interactions/page-stack/Stack.tsx:107-109 | `activeIndex` becomes `min(prev + 1, N - 1)`. |
| Stack.StackController.HoverEnter | src/interactions/page-stack/Stack.tsx:121 | Sets the hovered card and leaves `activeIndex` unchanged. |
| Stack.StackController.HoverLeave | src/interactions/page-stack/Stack.tsx:122 | Clears the hovered card and leaves `activeIndex` unchanged. |
| Stack.StackController.HandleDragEnd | src/interactions/page-stack/Stack.tsx:124-133 | Routes the drag through the card's classifier and the callbacks it was given. The invariant is kept. |
| StackCard.DragEnabled | src/interactions/page-stack/Card.tsx:41-42 | Drag is never enabled on a horizontal card, nor on a card with neither a close nor an open callback. |
| StackCard.ConstrainedDrag | src/interactions/page-stack/Card.tsx:47-62 | A card with close but no open is held at `top: 0`, so its offset is never negative. Such a card never requests open, and it requests close iff pulled down past the threshold. |
| StackCard.ClassifyDrag | src/interactions/page-stack/Card.tsx:54-71 | Close iff there is a close callback and `offset.y > threshold`. Open iff close did not fire, there is an open callback and `offset.y < -threshold`. Bounce iff neither fired. |
| StackCard.ThresholdBounces | src/interactions/page-stack/Card.tsx:54-71 | A drag of exactly `+threshold` or `-threshold` bounces. |
| StackCard.OrderIrrelevant | src/interactions/page-stack/Card.tsx:54-62 | With a non-negative threshold, the close and open conditions cannot both hold, so checking close first decides nothing. |
| StackCard.AnimateTarget | src/interactions/page-stack/Card.tsx:79 | A horizontal card targets `x = pos, y = 0`. A vertical card targets `y = pos, x = 0`. |
| ProjectCard.DragOutcome | src/projects/page-stack/Card.tsx:56-72 | The project card's classifier is the interaction card's classifier. It bounces iff neither callback condition holds. |
| ProjectCard.AnimateTarget | src/projects/page-stack/Card.tsx:80-88 | While not ready, the target is "100%" on the orientation's axis; otherwise it is `pos`. The other axis is 0. |
| ProjectCard.BackgroundClass | src/projects/page-stack/Card.tsx:99-103 | `bg-base-100` iff the card is vertical or active, else `bg-base-200`. |
| ProjectCard.Label | src/projects/page-stack/Card.tsx:124 | "Page " followed by decimal digits that denote `index + 1`. |
| ContentTypes.AvailableFilters | src/lib/content-types.ts:45-48 | "All" first, then each type's plural label in table order. |
| ContentTypes.AvailableFiltersAre | src/lib/content-types.ts:12-48 | The filters are exactly `["All", "Interactions", "Experiments", "Designs"]`. |
| ContentTypes.IndexBy | src/lib/content-types.ts:35-41 | The map's keys are exactly the definitions' keys. Each key maps to a definition of the table that has that key. |
| ContentTypes.TablesInjective | src/lib/content-types.ts:12-41 | Ids and URL values are pairwise distinct, so each map returns the very definition it was built from. |
| ContentTypes.TableKeys | src/lib/content-types.ts:35-41 | The maps' keys are the three ids and the three URL values. |
| ContentTypes.GetDefinitionById | src/lib/content-types.ts:50-56 | Succeeds iff the id is one of the three. The result has that id. Any other id fails with "Unknown content type id: " followed by the id. |
| ContentTypes.TypeIdToUrlFilterValue | src/lib/content-types.ts:58-60 | Fails exactly when `getDefinitionById` throws. |
| ContentTypes.FindByPlural | src/lib/content-types.ts:64 | A found definition has the plural label. When none is found, no definition has it. |
| ContentTypes.ToUrlFilterValue | src/lib/content-types.ts:62-66 | The URL value is "all" or one of the types' URL values. |
| ContentTypes.ToUrlFilterValueCases | src/lib/content-types.ts:62-66 | "All" maps to "all". Each plural label maps to its URL value. Anything else maps to "all". |
| ContentTypes.FilterFromUrlValue | src/lib/content-types.ts:68-74 | The result is always an available filter. It is "All" for absent, "" or "all", and for values whose lower-case form is not a URL value. Any other value, in any letter case, reads as the plural label of the type whose URL value is its lower-case form. |
| ContentTypes.FilterFromKnownUrlValue | src/lib/content-types.ts:71-73 | A known lower-case URL value other than "all" reads as its type's plural label. |
| ContentTypes.UrlValueCanonical | src/lib/content-types.ts:12-31 | Every URL value is non-empty, not "all", and already lower case. |
| ContentTypes.FindPluralLabel | src/lib/content-types.ts:64 | Looking up a type's plural label finds that type. |
| ContentTypes.PluralRoundTrip | src/lib/content-types.ts:62-74 | A plural label written to the URL reads back as itself. |
| ContentTypes.FilterRoundTrip | src/lib/content-types.ts:45-74 | `filterFromUrlValue(toUrlFilterValue(f)) == f` for every available filter. |
| ContentTypes.UrlFilterValueToTypeId | src/lib/content-types.ts:76-81 | Defined iff the lower-cased input is a URL value. |
| ContentTypes.UrlFilterValueToTypeIdInverse | src/lib/content-types.ts:58-81 | The lookup ignores case. When it finds a type, `typeIdToUrlFilterValue` of that type is the lower-cased input. |
| Clock.HandleAngles | src/projects/clock-of-clocks/clock.ts:1-9 | Every hand of every shape points at 0, 45, 90, 180 or 270 degrees. |
| Clock.ShapeKeys | src/projects/clock-of-clocks/clock.ts:1-9 | The shapes are tl, tr, bl, br, v, h and i. |
| Clock.DigitMapKeys | src/projects/clock-of-clocks/clock.ts:11-92 | The keys of `digitMap` are exactly the ten one-character decimal strings. |
| Clock.DigitGridsWellFormed | src/projects/clock-of-clocks/clock.ts:11-92 | Every digit's grid has 6 rows of 4 cells, each cell a shape of `handleMap`. |
| Clock.ZeroGridWellFormed | src/projects/clock-of-clocks/clock.ts:12-19 | The grid of "0" is 6 by 4 and made of known shapes. |
| Clock.OneGridWellFormed | src/projects/clock-of-clocks/clock.ts:20-27 | The same for "1". |
| Clock.TwoGridWellFormed | src/projects/clock-of-clocks/clock.ts:28-35 | The same for "2". |
| Clock.ThreeGridWellFormed | src/projects/clock-of-clocks/clock.ts:36-43 | The same for "3". |
| Clock.FourGridWellFormed | src/projects/clock-of-clocks/clock.ts:44-51 | The same for "4". |
| Clock.FiveGridWellFormed | src/projects/clock-of-clocks/clock.ts:52-59 | The same for "5". |
| Clock.SixGridWellFormed | src/projects/clock-of-clocks/clock.ts:60-67 | The same for "6". |
| Clock.SevenGridWellFormed | src/projects/clock-of-clocks/clock.ts:68-75 | The same for "7". |
| Clock.EightGridWellFormed | src/projects/clock-of-clocks/clock.ts:76-83 | The same for "8". |
| Clock.NineGridWellFormed | src/projects/clock-of-clocks/clock.ts:84-91 | The same for "9". |
| Clock.UtcHours | src/projects/clock-of-clocks/clock.ts:101 | `getUTCHours` is below 24. |
| Clock.UtcMinutes | src/projects/clock-of-clocks/clock.ts:102 | `getUTCMinutes` is below 60. |
| Clock.UtcSeconds | src/projects/clock-of-clocks/clock.ts:103 | `getUTCSeconds` is below 60. |
| Clock.TimeOfDay | src/projects/clock-of-clocks/clock.ts:101-103 | Hours, minutes, seconds and milliseconds recompose the time of day (the time modulo one day). |
| Clock.GmtPlus7Time | src/projects/clock-of-clocks/clock.ts:94-98 | The result is the current instant plus 25,200,000 ms. |
| Clock.GmtPlus7Fields | src/projects/clock-of-clocks/clock.ts:94-106 | The shift moves the UTC hour by 7 modulo 24 and keeps the minutes and seconds. |
| Clock.PaddedDigits | src/projects/clock-of-clocks/clock.ts:101-105 | Three fields below 100 become their tens and units digits, in order. |
| Clock.FormatTimeToDigits | src/projects/clock-of-clocks/clock.ts:100-106 | Exactly six one-character strings: the tens and units of the UTC hours, minutes and seconds. |
| Clock.FormattedDigitsDrawable | src/projects/clock-of-clocks/clock.ts:11-106 | Every string `formatTimeToDigits` returns is a key of `digitMap`. |
| Clock.PaddedDigitsDrawable | src/projects/clock-of-clocks/clock.ts:101-105 | Every padded digit of fields below 100 is a key of `digitMap`. |
| Clock.FormattedDigitsDenoteTime | src/projects/clock-of-clocks/clock.ts:100-106 | Each pair is all decimal digits and reads back as the hours, minutes and seconds respectively. |
| Clock.TwoDigitsValue | src/projects/clock-of-clocks/clock.ts:101-105 | The tens and units digits of `n < 100` read back as `n`. |
| Counter.Incremented | src/projects/clock-of-clocks/counter.tsx:7-9 | Stays in 0..999. Adds one below 999. Unchanged iff the count is 999. |
| Counter.Decremented | src/projects/clock-of-clocks/counter.tsx:11-13 | Stays in 0..999. Subtracts one above 0. Unchanged iff the count is 0. |
| Counter.StepsUndo | src/projects/clock-of-clocks/counter.tsx:7-13 | Below the ceiling a decrement undoes an increment. Above the floor an increment undoes a decrement. |
| Counter.Digits | src/projects/clock-of-clocks/counter.tsx:20-21 | A count below 1000 gives three characters: its hundreds, tens and units digits. |
| Counter.Chars | src/projects/clock-of-clocks/counter.tsx:21 | `split("")` gives one single-character string per character. |
| Counter.DigitsDrawable | src/projects/clock-of-clocks/counter.tsx:20-28 | Every displayed digit of a count in range is a key of `digitMap`. |
| Counter.DigitsDenoteCount | src/projects/clock-of-clocks/counter.tsx:20-21 | The three displayed digits are decimal digits and read back as the count. |
| Counter.ThreeDigitsValue | src/projects/clock-of-clocks/counter.tsx:20 | The three decimal digits of `c < 1000` read back as `c`. |
| Counter.CounterState.constructor | src/projects/clock-of-clocks/counter.tsx:5 | The count starts at 0. |
| Counter.CounterState.Increment | src/projects/clock-of-clocks/counter.tsx:7-9 | The count becomes `Incremented` of the old count, and `0 <= count <= 999` is kept. |
| Counter.CounterState.Decrement | src/projects/clock-of-clocks/counter.tsx:11-13 | The count becomes `Decremented` of the old count, and the invariant is kept. |
| Counter.CounterState.Reset | src/projects/clock-of-clocks/counter.tsx:15-17 | The count becomes 0. |
| Counter.CounterState.Display | src/projects/clock-of-clocks/counter.tsx:20-28 | Three digit strings, each a key of `digitMap`. |
| SidebarStore.ToggleSidebar | src/lib/stores/sidebarStore.ts:18-20 | Negates `isExpanded` and keeps the other fields. |
| SidebarStore.ToggleMobileMenu | src/lib/stores/sidebarStore.ts:22-24 | Negates `isMobileMenuOpen` and keeps the other fields. |
| SidebarStore.SetExpanded | src/lib/stores/sidebarStore.ts:26-28 | Sets `isExpanded` and keeps the other fields. |
| SidebarStore.SetManualToggle | src/lib/stores/sidebarStore.ts:30-32 | Sets `isManualToggle` and keeps the other fields. |
| SidebarStore.TogglesInvolutive | src/lib/stores/sidebarStore.ts:18-24 | Each toggle applied twice restores the state, and the two toggles commute. |
| SidebarStore.SettersIdempotent | src/lib/stores/sidebarStore.ts:18-32 | Setting twice is setting once. `setExpanded(b)` is the identity when `b` is the current value, and a toggle otherwise. |
| SidebarStore.Store.constructor | src/lib/stores/sidebarStore.ts:14-16 | Starts expanded, with the mobile menu closed and no manual toggle. |
| SidebarStore.Store.ToggleSidebarAction | src/lib/stores/sidebarStore.ts:18-20 | The new state is `ToggleSidebar` of the old. |
| SidebarStore.Store.ToggleMobileMenuAction | src/lib/stores/sidebarStore.ts:22-24 | The new state is `ToggleMobileMenu` of the old. |
| SidebarStore.Store.SetExpandedAction | src/lib/stores/sidebarStore.ts:26-28 | The new state is `SetExpanded` of the old. |
| SidebarStore.Store.SetManualToggleAction | src/lib/stores/sidebarStore.ts:30-32 | The new state is `SetManualToggle` of the old. |
| WidgetsSchema.ParseType | src/lib/widgets-schema.ts:25-56 | The discriminator is known iff it is image, video, image-swap or interactive. |
| WidgetsSchema.ParseAspect | src/lib/widgets-schema.ts:47 | The aspect is known iff it is portrait, landscape or square. |
| WidgetsSchema.Then | src/lib/widgets-schema.ts:27-55 | Issues from two fields: fatal iff either is, and none iff neither has any. |
| WidgetsSchema.ShapeCheck | src/lib/widgets-schema.ts:27-55 | A fatal shape check always carries an issue. |
| WidgetsSchema.BackgroundIssues | src/lib/widgets-schema.ts:14-22 | No issue iff `bgImage` or `bgFillClass` is present and non-empty. Otherwise exactly one custom issue at `["config", "bgImage"]`. |
| WidgetsSchema.ShapeCheckSound | src/lib/widgets-schema.ts:27-55 | The shape checks pass iff the type's required payload is present, `previewWidth` is absent or in [0, 1], and for image-swap `aspect` is a known value and `intervalMs` is at least 100. |
| WidgetsSchema.ParseWidget | src/lib/widgets-schema.ts:8-57 | `undefined` is accepted as no widget, and a present widget never parses to nothing. Every failure carries at least one issue. An unknown `type` fails with only the discriminator issue, and a known type without `config` fails with only the required issue at `config`. |
| WidgetsSchema.ParseAcceptsValid | src/lib/widgets-schema.ts:8-57 | The parser accepts exactly the valid widgets: absent, or a known type with a config meeting its shape and the background refinement. |
| WidgetsSchema.ParseKeepsFields | src/lib/widgets-schema.ts:8-57 | An accepted widget keeps its type and its background fields. |
| WidgetsSchema.BackgroundRequired | src/lib/widgets-schema.ts:14-22 | A config meeting its shape but without a background fails with exactly "Provide bgImage or bgFillClass" at `bgImage`. |
| WidgetsSchema.FatalIssueSkipsRefinement | src/lib/widgets-schema.ts:14-30 | An image config missing `previewImage` reports only that issue; the refinement does not run. |
| WidgetsSchema.RangeIssueKeepsRefinement | src/lib/widgets-schema.ts:14-39 | A `previewWidth` out of range is not fatal: the refinement's issue follows it. |
| WorksLoader.StripMarkdownExtension | src/lib/loaders/canonical-works-loader.ts:50 | The result is a prefix of the name. When anything is removed, it is `.md` or `.mdx` in some letter case. |
| WorksLoader.StripsExtension | src/lib/loaders/canonical-works-loader.ts:50 | A name ending in a Markdown extension of any case loses exactly that extension. |
| WorksLoader.IsCanonical | src/lib/loaders/canonical-works-loader.ts:45-52 | No contract of its own: the filter's predicate. What it accepts is stated by `WorksLoader.CanonicalShape`, `WorksLoader.CanonicalPath` and `WorksLoader.NestedNotCanonical`. |
| WorksLoader.EntryId | src/lib/loaders/canonical-works-loader.ts:68-69 | The id is a prefix of the path with no "/" in it. It is the whole path when the path has no "/". |
| WorksLoader.CanonicalShape | src/lib/loaders/canonical-works-loader.ts:45-52 | A canonical path is `folder/folder`, optionally followed by a Markdown extension. Its id is the folder. |
| WorksLoader.TwoPieces | src/lib/loaders/canonical-works-loader.ts:46-49 | Two pieces joined by "/" are the first, a "/", then the second. |
| WorksLoader.FolderThenFile | src/lib/loaders/canonical-works-loader.ts:48-51 | A path whose file, stripped of its extension, is the folder starts with `folder/folder`. |
| WorksLoader.CanonicalPath | src/lib/loaders/canonical-works-loader.ts:45-52 | Every `folder/folder.md` or `folder/folder.mdx` (any case) is canonical, with the folder as its id. |
| WorksLoader.NestedNotCanonical | src/lib/loaders/canonical-works-loader.ts:47 | A path with three segments is not canonical. |
| WorksLoader.CanonicalFiles | src/lib/loaders/canonical-works-loader.ts:45-52 | The kept paths are canonical globbed paths, and every canonical globbed path is kept. |
| WorksLoader.CanonicalFilesConcat | src/lib/loaders/canonical-works-loader.ts:45-52 | The filter keeps order: filtering a concatenation is concatenating the filtered parts. |
| WorksLoader.ChooseFrontmatter | src/lib/loaders/canonical-works-loader.ts:75-88 | The rendered front matter wins only when rendering succeeded with a non-empty one. A render error keeps gray-matter's data. |
| WorksLoader.StepFor | src/lib/loaders/canonical-works-loader.ts:55-101 | A path is skipped iff it cannot be read or reads as null. A readable path throws iff `extract` throws or the schema rejects the chosen front matter. Otherwise an entry is stored: its id is the folder, its path is under `src/works/`, and its data is the schema's parse of the chosen front matter. |
| WorksLoader.Loaded | src/lib/loaders/canonical-works-loader.ts:54-102 | No contract of its own: the loop over the paths in order, stopping at a throw. It is characterised by `WorksLoader.LoadThrows`, `WorksLoader.LoadedEntries` and `WorksLoader.ThrowEndsLoad`. |
| WorksLoader.LoadOne | src/lib/loaders/canonical-works-loader.ts:54-102 | One turn throws iff its path throws. A stored entry replaces any entry with its id. A skip or a throw leaves the entries as they were. |
| WorksLoader.LoadResult | src/lib/loaders/canonical-works-loader.ts:34-54 | A failed glob gives an empty store and no throw. |
| WorksLoader.LoadThrows | src/lib/loaders/canonical-works-loader.ts:54-102 | The load throws iff one of its paths throws. |
| WorksLoader.LoadedEntries | src/lib/loaders/canonical-works-loader.ts:54-102 | An id is stored iff some path before the first throw stores an entry with it as its folder. The stored entry is the entry of such a path. |
| WorksLoader.ThrowEndsLoad | src/lib/loaders/canonical-works-loader.ts:66-90 | When `extract` or `parseData` throws on a path, the load ends there. The store keeps exactly what the earlier paths stored. |
| WorksLoader.UnreadableSkipped | src/lib/loaders/canonical-works-loader.ts:57-64 | A path that cannot be read is skipped: loading without it gives the same result. |
| WorksLoader.Store.constructor | src/lib/loaders/canonical-works-loader.ts:25 | The store starts empty. |
| WorksLoader.Store.Clear | src/lib/loaders/canonical-works-loader.ts:29 | `store.clear()` empties the store. |
| WorksLoader.Store.Set | src/lib/loaders/canonical-works-loader.ts:93-101 | `store.set` adds the entry, replacing any entry with the same id. |
| WorksLoader.Load | src/lib/loaders/canonical-works-loader.ts:28-103 | After loading, the store and the throw flag are exactly the load result. The store is empty when globbing fails. Otherwise it holds the canonical files' entries, taken in order up to the first throw. |
| WorksLoader.GlobFailureLoadsNothing | src/lib/loaders/canonical-works-loader.ts:34-43 | A glob failure leaves the store empty and does not throw. |
| WorksLoader.SameFolderLaterWins | src/lib/loaders/canonical-works-loader.ts:93-101 | Two stored paths with the same folder leave one entry, the later one's. |
| WorksLoader.ParseWork | src/lib/loaders/canonical-works-loader.ts:105-123 | The schema accepts exactly the valid front matter: the required fields are present, and the enums and listed types are allowed. |
| WorksLoader.WorkDefaults | src/lib/loaders/canonical-works-loader.ts:105-123 | A valid work parses. Every absent optional field takes its default: types `["interaction"]`, portrait, top, light, `false`. Every present field, required or optional, is kept as given. The result meets every enum. |
| ImageSwapMedia.ValidImages | src/components/widgets/image-swap-media.tsx:21 | Only non-empty URLs from the input are kept, and every non-empty input URL is kept. |
| ImageSwapMedia.ValidImagesConcat | src/components/widgets/image-swap-media.tsx:21 | Filtering preserves order: filtering a concatenation is concatenating the filtered parts. |
| ImageSwapMedia.TickPeriod | src/components/widgets/image-swap-media.tsx:16-32 | The period is `max(100, intervalMs)`, with `intervalMs` defaulting to 500. |
| ImageSwapMedia.AspectRatioCss | src/components/widgets/image-swap-media.tsx:41-49 | A ratio exists iff the aspect is portrait, landscape or square. Portrait gives "4 / 5", landscape "5 / 4" and square "1 / 1". |
| ImageSwapMedia.SchemaAspectsHaveRatio | src/components/widgets/image-swap-media.tsx:41-49 | An aspect has a ratio iff the widget schema accepts it. Portrait is "4 / 5", landscape "5 / 4" and square "1 / 1". |
| ImageSwapMedia.Step | src/components/widgets/image-swap-media.tsx:29-30 | The next index is below `n`. It is one more, or wraps to 0 after the last image. |
| ImageSwapMedia.Steps | src/components/widgets/image-swap-media.tsx:29-30 | The index after any number of ticks is below `n`. |
| ImageSwapMedia.StepsInOrder | src/components/widgets/image-swap-media.tsx:22-30 | The first `n` ticks show the images in order. |
| ImageSwapMedia.StepsPeriodic | src/components/widgets/image-swap-media.tsx:29-30 | After `n` more ticks the same image is shown again. |
| ImageSwapMedia.SwapMedia.constructor | src/components/widgets/image-swap-media.tsx:21-33 | Mounting filters the images and starts at index 0. A timer is installed only for two or more valid images, with the clamped period. |
| ImageSwapMedia.SwapMedia.Tick | src/components/widgets/image-swap-media.tsx:29-30 | One tick advances the index cyclically and keeps it in range. |
| ImageSwapMedia.SwapMedia.Src | src/components/widgets/image-swap-media.tsx:39-53 | Nothing is rendered iff no image is valid. Otherwise the current valid image is shown. |
| ImageSwapMedia.SwapMedia.Loading | src/components/widgets/image-swap-media.tsx:55 | "eager" iff the index is 0, else "lazy". |
| CursorFollower.ParseTypes | src/components/ui/cursor-follower.tsx:56-60 | Every parsed type is non-empty, has no comma and has no white space at either end. A missing attribute gives no types. An attribute without a comma parses to its trim, or to nothing when the trim is empty. |
| CursorFollower.ParseTypesFirstPiece | src/components/ui/cursor-follower.tsx:56-60 | The piece before the first comma contributes its trim, or nothing when that is empty, followed by the parse of the rest. With the single-piece case this fixes the result for every attribute: split on ",", each piece trimmed, empty pieces dropped, order kept. |
| CursorFollower.ParsedPieces | src/components/ui/cursor-follower.tsx:59-60 | Trimming and dropping empty pieces leaves only clean types, no more than there were pieces. |
| CursorFollower.ParsedPiecesConcat | src/components/ui/cursor-follower.tsx:59-60 | The pieces are handled in order: parsing a concatenation concatenates the parses. |
| CursorFollower.ParsedPiecesSingle | src/components/ui/cursor-follower.tsx:59-60 | One piece parses to its trim, or to nothing when the trim is empty. |
| CursorFollower.ParseTypesRoundTrip | src/components/ui/cursor-follower.tsx:56-60 | A non-empty list of clean types, written as a comma list, parses back to itself. |
| CursorFollower.ParsedPiecesClean | src/components/ui/cursor-follower.tsx:59-60 | Clean pieces pass through trimming and filtering unchanged. |
| CursorFollower.ReadHoverData | src/components/ui/cursor-follower.tsx:55-60 | A missing title becomes "", and the types are `ParseTypes` of the attribute; a missing attribute is read as "" and gives no types. |
| CursorFollower.Capitalise | src/components/ui/cursor-follower.tsx:94 | Capitalising keeps the length and every character after the first. The first becomes upper case, and the lower-case form is unchanged. |
| CursorFollower.CapitaliseAll | src/components/ui/cursor-follower.tsx:93-94 | One capitalised type per type, in the same order. |
| CursorFollower.TypesText | src/components/ui/cursor-follower.tsx:91-96 | "" for no types, and a single capitalised type for one type. |
| CursorFollower.TypesTextCons | src/components/ui/cursor-follower.tsx:93-95 | For two or more types the text is the first capitalised, then " / ", then the rest. |
| CursorFollower.TypesTextEmpty | src/components/ui/cursor-follower.tsx:55-96 | The types line of parsed types is empty iff there are no types. |
| CursorFollower.TracksPointer | src/components/ui/cursor-follower.tsx:30-44 | A move is followed iff the pause has ended, or the label is visible and the pointer is over a marked element. |
| CursorFollower.LeavePausesTracking | src/components/ui/cursor-follower.tsx:67-71 | Right after a leave, moves are ignored for 700 ms, even over a marked element. |
| CursorFollower.Follower.constructor | src/components/ui/cursor-follower.tsx:15-21 | Starts hidden, with no data, resume time 0 and target (0, 0). |
| CursorFollower.Follower.OnEnter | src/components/ui/cursor-follower.tsx:53-65 | Stores the element's data and shows the label, keeping the ref and the state in step. Afterwards the label is rendered. |
| CursorFollower.Follower.OnLeave | src/components/ui/cursor-follower.tsx:67-71 | Hides the label and sets the resume time to `now + 700`. Afterwards the label is not rendered. |
| CursorFollower.Follower.HandlePointerMove | src/components/ui/cursor-follower.tsx:26-45 | When the move is tracked, the target becomes the client coordinates plus 14. Otherwise the target is unchanged. Nothing else changes. |
| JsString.NatToString | src/projects/clock-of-clocks/counter.tsx:20 | `toString()` gives decimal digits that denote the number, with no leading zero and the expected length. |
| JsString.PadStart | src/projects/clock-of-clocks/counter.tsx:20 | `padStart` keeps the string as a suffix and fills the front with the pad up to the target length. |
| JsString.TwoDigitPadding | src/projects/clock-of-clocks/clock.ts:101-103 | A number below 100 padded to two characters is its tens digit then its units digit. |
| JsString.ThreeDigitPadding | src/projects/clock-of-clocks/counter.tsx:20 | A number below 1000 padded to three characters is its hundreds, tens and units digits. |
| JsString.Split | src/components/ui/cursor-follower.tsx:57-58 | `split` on one character: at least one piece, no piece containing the separator, and joining the pieces gives the string back. |
| JsString.SplitJoin | src/lib/loaders/canonical-works-loader.ts:46 | Joining separator-free pieces and splitting again gives the pieces back. |
| JsString.Trim | src/components/ui/cursor-follower.tsx:59 | `trim` gives a slice of the string. Everything cut off before and after it is white space, and the slice has no white space at either end. |
| JsString.TrimKeepsOut | src/components/ui/cursor-follower.tsx:58-59 | Trimming adds no character, so a trimmed piece of a split still has no separator. |
| JsString.TrimTrimmed | src/components/ui/cursor-follower.tsx:59 | A string with no white space at either end is its own trim. |
| JsString.ToLower | src/lib/content-types.ts:72 | `toLowerCase` maps each character to its lower case and keeps the length. |
| JsString.ToLowerIdempotent | src/lib/content-types.ts:76-81 | Lower-casing twice is lower-casing once. |

## Left out

- Animation playback is left out: motion springs, tweens, easing, `transitionDelay` and `AnimatePresence`. Positions are only the targets handed to the animation library.
- Adding and removing cards is left out; no source file defines such a handler.
- IEEE floating point is left out. Pixel arithmetic is on exact reals, so NaN and rounding are not modelled beyond the `undefined` table read listed under Findings.
- Positions.PeekOffsets: reads the peek table with its index clamped to the last entry. The as-written unclamped read is `Positions.PeekOffsetsAsWritten`; see Findings.
- Stack.StackController.HandleCardClick, Stack.StackController.HandleDragEnd: take `isMobile` as a parameter instead of measuring the container.
- Stack.StackController.RequestClose: updates `activeIndex` directly, as React's functional `setState` would. Batching of several updates in one render is not modelled.
- The DOM checks are left out. `target.closest("[data-info-drawer]")` and `closest("[data-cursor-hover]")` are taken as booleans.
- Clock.GmtPlus7Time: takes the current time as a parameter instead of reading the clock. Invalid `Date` values are not modelled.
- Clock.UtcHours: defined as floor division of the epoch milliseconds, taken modulo, which is what `getUTCHours` computes for valid dates. The same holds for UtcMinutes and UtcSeconds.
- `setInterval` and `clearInterval` are left out. `SwapMedia` records the installed timer's period, and each tick is a call to `Tick`.
- ImageSwapMedia.SwapMedia.constructor: models one mount. Keeping `index` across changes of the `images` prop, where it may exceed the new length, is not modelled.
- JsString.ToLower: maps only the ASCII letters. The same holds for `toUpperCase` in `CursorFollower.Capitalise`; Unicode case mapping is not modelled.
- JsString.Trim: removes ASCII white space, the no-break space, the byte-order mark and the line and paragraph separators (U+2028, U+2029), but not the other Unicode space separators (U+1680, U+2000 to U+200A, U+202F, U+205F, U+3000).
- CursorFollower.Follower.OnEnter: takes the data already read from the element, produced by `CursorFollower.ReadHoverData`, instead of reading DOM attributes.
- `performance.now()` is passed to the handlers as `now`.
- Loader I/O is taken as parameters: `tinyglobby` as the globbed list (absent when it throws), and `fs.readFile`, gray-matter's `extract` and `renderMarkdown` as functions. A throw from `extract` is an absent result.
- WorksLoader.StepFor: takes `parseData` to be the schema's parse (`ParseWork`) of the chosen front matter, after the host reads its values into the schema's fields (the `decode` parameter). How YAML values become those fields is not modelled. A rejection is a throw that ends `load`.
- The loader's `generateDigest`, `assetImports` and the logger's warnings are left out. The digest is computed by the host from the contents.
- WorksLoader.ParseWork: represents a wrongly typed field only as absent, so zod's type-mismatch issues and `z.coerce.date` are not modelled. Dates are epoch milliseconds.
- WidgetsSchema.ParseWidget: represents wrongly typed fields and unknown keys only as absent. The issue list's order follows the shape's field order, and zod's exact messages other than the refinement's are not modelled.
- The surrounding application is left out: navigation, dialogs, the filter store's URL and history I/O, scroll smoothing, content counts and the big clock's timer. None of it computes anything the core depends on.

## Findings

| source | as written | input that shows it | evidently intended | confidence | as-written member | corrected member |
|---|---|---|---|---|---|---|
| src/interactions/page-stack/positions.ts:199-202 | Open cards above the hovered card read `PEEK_OFFSET_RIGHT_MAP[activeIndex - i]` with no clamp. The table has 5 entries, so a distance of 5 or more reads `undefined`, and that card's position becomes NaN. | 7 cards, card 6 active, card 0 hovered. Card 1 reads entry 5, which is `undefined`. | Clamp the index to the table's last entry, as `calculateApproachingOffset` does for its tables. | medium (the site's stack, Stack.tsx, fixes 3 cards, where it cannot occur); not executed | Positions.PeekOffsetsAsWritten, Positions.PeekTableOverrun | Positions.PeekOffsets, Positions.PeekOpenCards |

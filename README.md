# Order history list: a verified model

This project models the behaviour inside `OrderHistoryList`, the client
component that lists a customer's past orders in a food-ordering web app.
The rendering (JSX, styling, images, dialog and button primitives) is not
modelled. What remains is modelled and proved in Dafny:

- **Grouping by day** (`grouping.dfy`). An empty history shows the
  empty-state message instead of a grouping. Otherwise one pass over the
  orders fills a dictionary keyed by the day label. The label is the locale
  date text with its first character upper-cased. A bucket is created the
  first time its label is seen, and each order is appended to its bucket.
  The buckets are then listed in key-insertion order. `GroupOrders` is that
  loop. It is proved equal to `GroupingOf`, a reference definition built
  from `Distinct` (labels in first-seen order) and `Filter` (the orders with
  one label, in input order). The lemmas prove that the result is a
  partition, that buckets are stable, that headings are distinct and in
  first-seen order, and that no bucket is empty.
- **Reorder** (`reorder.dfy`). `OrderHistoryView` holds the browser storage
  as a map, the router as a log of pushed paths, and the order shown in the
  detail dialog. `HandleReorder` acts only when the merchant slug is
  present and non-empty. It then overwrites the `"pendingReorder"` entry
  with the order's items and merchant id, and navigates to `"/" + slug`.
  Otherwise it changes nothing.
- **Labels** (`labels.dfy`): the status text and its check-mark icon, the
  payment-method text with passthrough, the first-item preview and its
  `" + N itens"` suffix, the short order number, and the merchant name,
  initial and avatar fallbacks.
- **Item notes** (`annotations.dfy`): flavour list, single flavour, combo
  parts and removed ingredients. Each note shows only when its field is
  present and non-empty. The single flavour shows only when the flavour
  list is absent altogether.

`text.dfy` holds the string helpers: first-letter upper-casing, `join`,
and the decimal text of a count. `order_model.dfy` holds the records, and
`wrappers.dfy` holds `Option`. An absent field is `None`, and JavaScript
truthiness is spelled out (`Truthy`, `NonEmptyList`).

## Model

| member | source | states |
|---|---|---|
| `Text.UpperChar` | components/client/order-history-list.tsx:39 | `toUpperCase` of one character: a-z and U+00E0..U+00FE (except U+00F7) move down by 32, U+00FF becomes U+0178, U+00B5 becomes U+039C, every other character is unchanged; the result is never a lower-case letter |
| `Text.Capitalize` | components/client/order-history-list.tsx:39 | length is kept, the first character becomes its upper case (`UpperChar`) and every later character is unchanged; a non-empty result never starts with a lower-case letter; a string not starting with one is returned unchanged |
| `Text.CapitalizeIdempotent` | components/client/order-history-list.tsx:39 | capitalizing a label twice gives the same label as once |
| `Text.Join` | components/client/order-history-list.tsx:199 | empty list gives ""; otherwise the length is the parts' total plus one separator between neighbours, the first part is a prefix and the last a suffix |
| `Text.JoinParts` | components/client/order-history-list.tsx:199 | every part `i` stands in the joined text at its start position (the earlier parts' total length plus one separator each), and the separator follows every part but the last, right up to where the next part starts |
| `Text.DecimalString` | components/client/order-history-list.tsx:122 | the text of a count is non-empty, all decimal digits, with no leading zero |
| `Text.DecimalRoundTrip` | components/client/order-history-list.tsx:122 | reading the decimal text of n back gives n |
| `Grouping.Label` | components/client/order-history-list.tsx:31-39 | an order's heading has the date key's length, its first character upper-cased (`UpperChar`) and the rest unchanged; capitalizing it again changes nothing |
| `Grouping.LabelsOf` | components/client/order-history-list.tsx:30-39 | one label per order, position by position, each the capitalized date key of that order |
| `Grouping.Distinct` | components/client/order-history-list.tsx:41-43 | the keys created on first sight have no duplicates and are exactly the labels that occur |
| `Grouping.FilterCount` | components/client/order-history-list.tsx:41-44 | a bucket holds every order with its label as often as it occurs in the input, and no other order |
| `Grouping.Entries` | components/client/order-history-list.tsx:64 | the listed buckets are the dictionary's keys in insertion order, each with its stored orders |
| `Grouping.GroupOrders` | components/client/order-history-list.tsx:20-48 | the component's early return and reduce loop produce exactly `GroupingOf`: the empty state for no orders, else one bucket per distinct label in first-seen order holding that label's orders in input order |
| `Grouping.EmptyHistory` | components/client/order-history-list.tsx:20-26 | the empty state appears exactly for an empty history; a non-empty history gives at least one bucket and every bucket is non-empty |
| `Grouping.Partition` | components/client/order-history-list.tsx:29-48 | bucket sizes add up to the number of orders and the buckets together are a permutation of the input |
| `Grouping.OneBucketPerOrder` | components/client/order-history-list.tsx:41-44 | every order lies in exactly the buckets headed by its own label, such a bucket exists, and each bucket is the input filtered by its heading in input order |
| `Grouping.HeadingOrder` | components/client/order-history-list.tsx:41-43 | headings are pairwise distinct, are exactly the labels of the input, and appear in order of each label's first occurrence |
| `Grouping.FirstSeenOrder` | components/client/order-history-list.tsx:41-43 | `Distinct` lists labels by increasing position of first occurrence |
| `Reorder.ReorderSlug` | components/client/order-history-list.tsx:51 | a slug is usable exactly when the company is present and its slug is present and non-empty |
| `Reorder.PayloadOf` | components/client/order-history-list.tsx:52-55 | the stored payload carries the order's items unchanged and its merchant id |
| `Reorder.MenuPath` | components/client/order-history-list.tsx:57 | the navigation target is "/" followed by the slug |
| `Reorder.OrderHistoryView.constructor` | components/client/order-history-list.tsx:17-18 | the list starts over the given storage with no navigation and no order selected |
| `Reorder.OrderHistoryView.DialogOpen` | components/client/order-history-list.tsx:162 | the dialog is open exactly when an order is selected |
| `Reorder.OrderHistoryView.HandleReorder` | components/client/order-history-list.tsx:50-59 | with a usable slug, the pending-reorder entry becomes the items and merchant id whatever it held before, every other key is unchanged, and the log gains exactly "/" + slug; without one, storage and log are unchanged |
| `Reorder.OrderHistoryView.ShowDetails` | components/client/order-history-list.tsx:142 | the "Detalhes" button selects the order and opens the dialog, touching nothing else |
| `Reorder.OrderHistoryView.OnOpenChange` | components/client/order-history-list.tsx:161-163 | a close request clears the selection; an open request changes nothing |
| `Reorder.ReorderTwice` | components/client/order-history-list.tsx:50-59 | after two reorders, the second's payload is stored (last write wins), every other storage key and the selected order are unchanged, and both paths were pushed in order |
| `Labels.StatusLabel` | components/client/order-history-list.tsx:94-107 | "Pedido concluído" exactly for delivered or completed, "Cancelado" exactly for cancelled, "Em andamento" exactly for every other value |
| `Labels.ShowsCheckIcon` | components/client/order-history-list.tsx:94-101 | the check mark is drawn exactly when the status reads "Pedido concluído" |
| `Labels.PaymentLabel` | components/client/order-history-list.tsx:238-246 | pix, credit, debit and cash map to "Pix", "Crédito", "Débito" and "Dinheiro"; any other value is returned unchanged |
| `Labels.PreviewSuffix` | components/client/order-history-list.tsx:121-122 | empty exactly for at most one item; otherwise " + ", decimal digits with no leading zero whose value is the item count minus one, and " itens" |
| `Labels.ItemsPreview` | components/client/order-history-list.tsx:113-135 | the card shows the first item's quantity and name (nothing without items), its image only when present and non-empty, and the suffix `PreviewSuffix` gives for the number of items (so none for at most one item) |
| `Labels.ShortId` | components/client/order-history-list.tsx:178 | "#" followed by a prefix of the id of length eight, or the whole id when shorter |
| `Labels.CompanyName` | components/client/order-history-list.tsx:91 | the company name when present and non-empty, else "Restaurante"; never empty |
| `Labels.CompanyInitial` | components/client/order-history-list.tsx:85 | one character: the first character of the displayed name, so "R" when the name falls back |
| `Labels.AvatarOf` | components/client/order-history-list.tsx:76-87 | the profile image exactly when present and non-empty, otherwise the initial of the displayed name |
| `Annotations.FlavorListNote` | components/client/order-history-list.tsx:196-201 | shown exactly when the flavour list is present and non-empty, as the flavours joined by ", " |
| `Annotations.SingleFlavorNote` | components/client/order-history-list.tsx:202-206 | shown exactly when the flavour list is absent and the single flavour is non-empty, with that flavour |
| `Annotations.Bulleted` | components/client/order-history-list.tsx:209-211 | one line per combo part, each "• " followed by the part |
| `Annotations.ComboNote` | components/client/order-history-list.tsx:207-213 | shown exactly when the combo list is present and non-empty, as the bulleted parts: line `i` is "• " followed by part `i` |
| `Annotations.RemovedNote` | components/client/order-history-list.tsx:214-219 | shown exactly when the removed list is present and non-empty, as "Sem: " and the ingredients joined by ", " |
| `Annotations.FlavorNotes` | components/client/order-history-list.tsx:196-206 | holds exactly the flavour-list note and the single-flavour note that are shown, at most two, the list note first |
| `Annotations.NotesOf` | components/client/order-history-list.tsx:196-219 | holds exactly the notes whose blocks are shown, each independently of the others, at most one of each kind, always in the order flavour list, single flavour, combo, removed ingredients |
| `Annotations.FlavorPrecedence` | components/client/order-history-list.tsx:196-206 | at most one flavour line; one exactly when the list is non-empty or absent with a non-empty single flavour; a present but empty list shows none; a non-empty list is the line shown; an absent list with a non-empty single flavour shows that flavour; flavour lines come first among the notes |
| `Annotations.NoNotes` | components/client/order-history-list.tsx:196-219 | an item shows no notes exactly when none of the four conditions holds |

## Left out

- Locale date formatting (`toLocaleDateString`, `toLocaleString`) is an ICU call. It is the parameter `dateKey` of the grouping, an arbitrary function from `createdAt` to text. The full date and time shown in the dialog is not modelled.
- Text.Capitalize: upper-cases ASCII a-z and the Latin-1 lower-case letters (U+00B5, U+00E0..U+00FF except U+00F7) only. U+00DF, whose upper case is the two letters "SS", and lower-case letters beyond Latin-1 are left unchanged. The first characters of Portuguese weekday abbreviations are all ASCII.
- Text.UpperChar: covers the same letters as Text.Capitalize, for the same reason.
- Labels.CompanyInitial: takes the name's first Unicode scalar value. JavaScript `charAt(0)` takes one UTF-16 code unit, so for a name starting outside the Basic Multilingual Plane (an emoji, say) JavaScript shows a lone surrogate where the model shows the whole character.
- Labels.AvatarOf: its initial is Labels.CompanyInitial's, with the same UTF-16 difference.
- Labels.ShortId: counts Unicode scalar values. JavaScript `slice` counts UTF-16 code units, and the two differ only for ids outside the Basic Multilingual Plane.
- Object key order for integer-like keys is not modelled. JavaScript lists such keys first, but day labels are never canonical integer strings, so insertion order holds.
- Keys inherited from `Object.prototype` are not modelled. The dictionary is a plain `{}`, so a label such as `toString` would find an inherited value. Day labels never take such names.
- `localStorage` holds serialized strings. The model stores the payload value itself, and `JSON.stringify` is not modelled.
- Reorder.OrderHistoryView.HandleReorder: the storage write and the navigation happen as one step, with no interleaving and no failure of either call.
- `formatCurrency` for the item subtotals and the order total lives in a utility module that is not part of this model. The amounts are carried as integers.
- The delivery address block (lines 249-262), the `"{quantity}x"` prefix of each item line, and the `capitalize` style on the payment text are markup with no logic. They are not modelled.
- The React state hook and dialog lifecycle are reduced to the `selectedOrder` field and its two transitions.
- components/client/site-footer.tsx is static markup and is not part of this model.

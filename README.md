# Portfolio storefront: cart, checkout and API rules in Dafny

This project models the logic of a small portfolio storefront. Visitors browse
publications (projects offered at a monthly price) and put them in a cart. They
check out through a form that sends the order as a WhatsApp message, or they
ask for a custom project through a dialog that does the same. An Express API
serves the publications and the site settings; its writes sit behind a
bearer-token middleware and are stored through a Supabase client.

The model follows the code's structure, one Dafny module per part:

- `Wrappers`: `Option` and `Result`.
- `Strings`: the JavaScript built-ins the code uses, written out. `String(n)`
  for whole numbers, `toFixed(2)` on a price in cents together with its
  reader, `.length` in UTF-16 code units, `trim`, `split(' ')`, and the `||`
  fallback.
- `UriEncoding`: `encodeURIComponent`, following section 19.2.6.5 of ECMA-262.
  It percent-encodes the UTF-8 bytes (section 3 of RFC 3629) of every character
  outside the unreserved set, as section 2.1 of RFC 3986 describes. A reference
  decoder proves that the encoding loses nothing.
- `Schema`: the zod schemas of `shared/schema.ts`, as validation functions
  that return either the parsed value or the list of issues.
- `Cart`: the pure list rules of the cart context: `addItem`, `removeItem`,
  `updateQuantity` and the two totals.
- `CartContext`: the provider as a class. Its `items` state is replaced by each
  operation, and it holds the snapshot last written to local storage.
- `WhatsApp`: the phone-number fallback, the `https://wa.me/...` link, and what
  a recipient reads back from a link.
- `Checkout`: the order message, built by a loop as `onSubmit` builds it, and
  the submit step, which clears the cart.
- `CustomProject`: the dialog as a class. It does a blank check, fills in the
  message template, opens the link and resets its fields.
- `Auth`: the `requireAuth` middleware. A class for the request fields it
  writes, and the decision it takes.
- `Storage`: the `SupabaseStorage` methods, as rules over the replies of the
  database. Publications are a map from id to row; settings are a class whose
  upsert changes a map.
- `Routes`: the Express handlers, each from what storage returns to a status
  and a body. This includes the settings map a loop builds and the chain of
  conditional upserts.

Prices are whole numbers of cents, not decimal strings read with `parseFloat`.
Everything the code gets from outside is a parameter:

- the saved cart;
- the configured WhatsApp number;
- the identity service's answer for a token;
- the database's reply to each query;
- the row-level policy that accepts or refuses each settings write.

## Model

| member | source | states |
|---|---|---|
| Strings.NatToString | client/src/pages/Checkout.tsx:60 | `${index + 1}`: a non-empty run of decimal digits that starts with 0 only for zero |
| Strings.NatToStringRoundTrip | client/src/pages/Checkout.tsx:60 | reading back the decimal digits of a whole number gives that number |
| Strings.NatToStringInjective | client/src/pages/Checkout.tsx:60 | different item numbers are printed differently |
| Strings.IntToString | client/src/pages/Checkout.tsx:61 | `${item.quantity}`: a minus sign exactly for a negative number, then its decimal digits; never empty |
| Strings.FormatCentsRoundTrip | client/src/pages/Checkout.tsx:62-65 | a price in cents printed with two decimals, a sign included, reads back as the same number of cents |
| Strings.FormatCents | client/src/pages/Checkout.tsx:62 | `toFixed(2)` on an amount in cents: digits, a point third from the end and two more digits, with a leading minus sign exactly for a negative amount |
| Strings.Utf16Length | shared/schema.ts:59-60 | the `.length` a `.min` check measures lies between the number of characters and twice that, and equals it exactly when every character is in the Basic Multilingual Plane |
| Strings.TrimEmptyIffBlank | client/src/components/CustomProjectDialog.tsx:34 | `trim()` gives the empty string exactly when the text is all whitespace |
| Strings.Trim | client/src/components/CustomProjectDialog.tsx:34 | `trim()`: no longer than the text, with no whitespace at either end, and empty only when the text is blank |
| Strings.TrimIsPiece | client/src/components/CustomProjectDialog.tsx:34 | what `trim()` keeps is one contiguous piece of the text with only whitespace before and after it |
| Strings.Split | server/middleware/auth.ts:14 | `split` gives at least one field, and no field holds the separator |
| Strings.JoinSplit | server/middleware/auth.ts:14 | joining the fields of a split with the separator gives back the text |
| Strings.SplitJoin | server/middleware/auth.ts:14 | splitting joined fields that hold no separator gives back those fields |
| Strings.SplitFirstField | server/middleware/auth.ts:14 | the first field runs up to the first separator, or to the end |
| Strings.OrElse | client/src/pages/Checkout.tsx:72 | the `or` fallback keeps a value that is present and not empty, and otherwise gives the fallback |
| UriEncoding.EncodeURIComponent | client/src/pages/Checkout.tsx:71 | the encoded text holds only unreserved characters and `%` |
| UriEncoding.Utf8RoundTrip | client/src/pages/Checkout.tsx:71 | decoding the UTF-8 bytes of a text gives back the text |
| UriEncoding.UnescapeEncode | client/src/pages/Checkout.tsx:71 | undoing the percent escapes of the encoded text gives the text's UTF-8 bytes |
| UriEncoding.DecodeEncode | client/src/pages/Checkout.tsx:71 | decoding the encoded text gives back the text |
| UriEncoding.EncodeInjective | client/src/components/CustomProjectDialog.tsx:44 | two different messages never have the same encoding |
| Schema.ValidateCartItem | shared/schema.ts:47-53 | a cart item is accepted exactly when its quantity is a whole number of at least 1; the accepted line keeps the other fields, and every refusal is reported under `quantity` |
| Schema.ParsePaymentMethod | shared/schema.ts:62-64 | exactly the four enum names are recognised, each as its own method |
| Schema.ValidateCheckout | shared/schema.ts:58-65 | a checkout is accepted exactly when name and city have at least 2 code units and the payment method is one of the four; the accepted value carries the form's fields; a refusal lists every issue and is never empty |
| Schema.CheckoutNameIssue | shared/schema.ts:59 | the "Nome deve ter pelo menos 2 caracteres" issue appears exactly when the name is shorter than 2 |
| Schema.CheckoutCityIssue | shared/schema.ts:60 | the city issue appears exactly when the city is shorter than 2 |
| Schema.CheckoutPaymentIssue | shared/schema.ts:62-64 | "Selecione um método de pagamento" appears exactly when no payment method is given |
| Schema.PaymentRequiredOnlyWhenMissing | shared/schema.ts:62-64 | a value outside the enum draws the enum message, not the required message |
| Schema.CheckoutIssuePaths | shared/schema.ts:58-65 | every issue names `name`, `city` or `paymentMethod` |
| Schema.ObservationNeverRejects | shared/schema.ts:61 | changing or dropping the observation never changes whether a checkout is accepted |
| Schema.ValidateCustomProject | shared/schema.ts:70-73 | a custom project is accepted exactly when the name has at least 2 code units and the description at least 10; each message appears exactly when its check fails |
| Schema.ValidateInsertPublication | shared/schema.ts:24-27 | an insert body is accepted exactly when title, description, imageUrl and monthlyPrice are all strings, and its value is those four |
| Schema.ValidateUpdatePublication | shared/schema.ts:29-31 | an update body is accepted exactly when none of its five fields holds a non-string, and a field is set exactly when the body has it, with the body's value |
| Schema.InsertableIsUpdatable | shared/schema.ts:24-31 | every accepted insert body, with no non-string id, is also an accepted update that sets the same four fields |
| Cart.IndexOf | client/src/contexts/CartContext.tsx:28 | `find` stops at the first line with the id, or past the end when no line has it |
| Cart.IndexOfFound | client/src/contexts/CartContext.tsx:28-29 | `find` finds a line exactly when the cart holds the id |
| Cart.QuantityOf | client/src/contexts/CartContext.tsx:28-32 | the quantity of the publication's first line, which `find` reaches and the `map` bumps; the contract states that it is 0 when the cart does not hold the publication |
| Cart.CountOfUnique | client/src/contexts/CartContext.tsx:26-38 | with unique ids, a publication has one line when it is in the cart and none otherwise |
| Cart.Increment | client/src/contexts/CartContext.tsx:30-34 | the `map` keeps the length, gives each line with the id one more unit and leaves the other lines as they are |
| Cart.AddItem | client/src/contexts/CartContext.tsx:26-38 | a held id gets one more unit on its line, with length, order and every other line unchanged; a new id is appended at the end with quantity 1 |
| Cart.AddItemKeepsValid | client/src/contexts/CartContext.tsx:26-38 | adding keeps ids unique and quantities at least 1 |
| Cart.HasIdAfterAdd | client/src/contexts/CartContext.tsx:26-38 | after adding, the cart holds the added publication |
| Cart.AddItemQuantity | client/src/contexts/CartContext.tsx:28-36 | with unique ids, adding raises that publication's quantity by exactly 1 and leaves every other quantity as it was |
| Cart.AddedQuantity | client/src/contexts/CartContext.tsx:28-36 | adding raises the quantity the first matching line shows by exactly 1, whatever the cart |
| Cart.AddTimes | client/src/contexts/CartContext.tsx:26-38 | adding the same item n times keeps the cart invariant |
| Cart.AddTimesQuantity | client/src/contexts/CartContext.tsx:26-38 | n additions of an item raise its quantity by n, so from an empty cart the quantity is n |
| Cart.AddTimesCount | client/src/contexts/CartContext.tsx:26-38 | after one or more additions to a valid cart, the publication has exactly one line |
| Cart.AddItemAt | client/src/contexts/CartContext.tsx:30-34 | with unique ids, adding a held publication replaces its line, in place, by the line with one more unit |
| Cart.RemoveItem | client/src/contexts/CartContext.tsx:40-42 | the result is no longer than the cart and holds no line with the id |
| Cart.RemoveItemMembers | client/src/contexts/CartContext.tsx:41 | the lines kept are exactly the cart's lines with another id |
| Cart.RemoveAppend | client/src/contexts/CartContext.tsx:41 | the filter works piece by piece, so the relative order of the kept lines is preserved |
| Cart.RemoveAbsent | client/src/contexts/CartContext.tsx:41 | removing an id the cart does not hold changes nothing |
| Cart.RemoveOnly | client/src/contexts/CartContext.tsx:41 | removing the only line with an id leaves the lines before it and after it, joined |
| Cart.RemoveAt | client/src/contexts/CartContext.tsx:41 | with unique ids, removing drops exactly the line at the id's position |
| Cart.RemoveItemKeepsValid | client/src/contexts/CartContext.tsx:40-42 | removing keeps ids unique and quantities at least 1 |
| Cart.SetQuantity | client/src/contexts/CartContext.tsx:49-53 | the `map` keeps the length and gives each line with the id the new quantity, its other fields and the other lines unchanged |
| Cart.UpdateQuantity | client/src/contexts/CartContext.tsx:44-54 | a quantity of zero or less is exactly `removeItem`; a positive one changes only the matching line's quantity, with length, order and other fields unchanged |
| Cart.UpdateQuantityKeepsValid | client/src/contexts/CartContext.tsx:44-54 | updating keeps the cart invariant, and updating an absent id changes nothing |
| Cart.UpdateQuantitySets | client/src/contexts/CartContext.tsx:49-53 | with unique ids, a positive update of a held publication sets its quantity to the given value |
| Cart.TotalsAppend | client/src/contexts/CartContext.tsx:60-64 | both totals of two carts joined are the sums of their totals |
| Cart.TotalsIgnoreOrder | client/src/contexts/CartContext.tsx:60-64 | two carts with the same lines in any order have the same totals |
| Cart.TotalItems | client/src/contexts/CartContext.tsx:60 | `totalItems`, the sum of the quantities folded from the left; with quantities of at least 1 it is at least the number of lines |
| Cart.TotalPrice | client/src/contexts/CartContext.tsx:61-64 | `totalPrice`, the sum of unit price times quantity in cents folded from the left; with quantities of at least 1 it is not negative |
| Cart.AddItemTotals | client/src/contexts/CartContext.tsx:26-64 | with unique ids, adding raises the item total by 1 and the price total by the unit price of the publication's line |
| Cart.RemoveItemTotals | client/src/contexts/CartContext.tsx:40-64 | with unique ids, removing lowers the item total by the publication's quantity and the price total by its line's price; an absent id changes neither |
| Cart.UpdateQuantityTotals | client/src/contexts/CartContext.tsx:44-64 | with unique ids, a positive update replaces the line's quantity in the item total and its line price in the price total |
| CartContext.CartProvider.constructor | client/src/contexts/CartContext.tsx:17-24 | with no stored cart the items start empty; a stored cart is taken as it is; the state is then written back |
| CartContext.CartProvider.AddItem | client/src/contexts/CartContext.tsx:26-38 | the items become `addItem` of the old items, the snapshot is written, and the invariant is kept |
| CartContext.CartProvider.RemoveItem | client/src/contexts/CartContext.tsx:40-42 | the items become `removeItem` of the old items, the snapshot is written, and the invariant is kept |
| CartContext.CartProvider.UpdateQuantity | client/src/contexts/CartContext.tsx:44-54 | the items become `updateQuantity` of the old items (through `removeItem` for quantities of zero or less), the snapshot is written, and the invariant is kept |
| CartContext.CartProvider.ClearCart | client/src/contexts/CartContext.tsx:56-64 | the cart and its snapshot are empty, and both totals are 0 |
| WhatsApp.Phone | client/src/pages/Checkout.tsx:72 | the number is the configured one unless it is missing or empty, and then "5511999999999"; it is never empty |
| WhatsApp.UrlShape | client/src/pages/Checkout.tsx:73 | the link is `https://wa.me/`, the number, `?text=`, then only unreserved characters and `%` |
| WhatsApp.Url | client/src/pages/Checkout.tsx:73 | `https://wa.me/`, then the number exactly as configured, then `?text=` and the encoded message |
| WhatsApp.UrlCarriesMessage | client/src/pages/Checkout.tsx:71-73 | when the number has no `?` and no `#`, the link's `text` parameter, read before any fragment, decodes to exactly the message |
| WhatsApp.FragmentHidesMessage | client/src/pages/Checkout.tsx:72-73 | a number holding `#` with no `?` before its first `#` starts the fragment, so the link has no `text` parameter and the message cannot be read back |
| Checkout.PaymentLabelsDistinct | client/src/pages/Checkout.tsx:46-51 | the four payment labels are all different, so the label the preamble shows identifies the method chosen |
| Checkout.PaymentLabel | client/src/pages/Checkout.tsx:46-51 | `paymentLabels`: Débito, Crédito, Dinheiro or PIX, each a non-empty word with no line break |
| Checkout.Preamble | client/src/pages/Checkout.tsx:53-57 | opens with the header; the customer's name, the city and the label of the payment method each sit right after their own label; ends with the items heading |
| Checkout.ItemLine | client/src/pages/Checkout.tsx:60-62 | an item's three lines: it starts a new line with its number index + 1 and ends with a line break |
| Checkout.ItemLineFields | client/src/pages/Checkout.tsx:60-62 | in an item's lines the title follows the number, the quantity follows its label and the unit price follows its label, and that price reads back as the item's price in cents |
| Checkout.ItemLines | client/src/pages/Checkout.tsx:59-63 | the lines of `forEach` in cart order: nothing for no items, and exactly the item's own lines for one item |
| Checkout.TotalLine | client/src/pages/Checkout.tsx:65 | the total label, the amount and a closing `*`; the amount shown reads back as the total in cents |
| Checkout.ObservationSection | client/src/pages/Checkout.tsx:67-69 | empty exactly when the observation is missing or empty, and otherwise ending with the observation as typed |
| Checkout.OrderMessage | client/src/pages/Checkout.tsx:53-69 | the whole message: it starts with the header and holds at least the preamble and the total line |
| Checkout.BeginMessage | client/src/pages/Checkout.tsx:53-57 | the first five appends give the header, then the customer, city and payment lines, then the items heading |
| Checkout.AppendItem | client/src/pages/Checkout.tsx:59-62 | the loop body appends the item's number, title, quantity and price lines |
| Checkout.AppendItems | client/src/pages/Checkout.tsx:59-63 | the `forEach` appends the lines of every item of the cart, in cart order and numbered from 1 |
| Checkout.ItemLinesAppend | client/src/pages/Checkout.tsx:59-63 | the item lines of two runs of items joined are the lines of the first, then those of the second, numbered on |
| Checkout.ItemLinesPrefix | client/src/pages/Checkout.tsx:59-63 | each pass of the loop appends the line of the next item |
| Checkout.ItemLineAt | client/src/pages/Checkout.tsx:59-63 | the item at position k is numbered k + 1 and listed after every item before it and before every item after it |
| Checkout.BuildMessage | client/src/pages/Checkout.tsx:53-69 | the message built step by step is the order message: preamble, item lines in cart order, total line, optional observation section |
| Checkout.ObservationSplit | client/src/pages/Checkout.tsx:67-69 | the message is the part that does not depend on the observation, followed by the observation section |
| Checkout.ObservationAtEnd | client/src/pages/Checkout.tsx:67-69 | a non-empty observation is appended last, with its heading; an empty one adds nothing, as a missing one does |
| Checkout.TotalAtEnd | client/src/pages/Checkout.tsx:65-69 | without an observation, or with an empty one, the message ends with the total line |
| Checkout.TwoLineOrder | client/src/pages/Checkout.tsx:59-65 | two items at 29.90 and one at 15.00 make 3 items and the line "*Total: R$ 74.80*" |
| Checkout.Submit | client/src/pages/Checkout.tsx:36-84 | a refused form and an empty cart send nothing and leave the cart alone; otherwise the link for the message of the cart as it was is opened, the message can be read back from the link when the number has no `?` and no `#`, and the cart is left empty |
| CustomProject.ProjectMessageFields | client/src/components/CustomProjectDialog.tsx:43 | with a single-line name, the name and the description can be read back from the message |
| CustomProject.ProjectMessage | client/src/components/CustomProjectDialog.tsx:43 | the template: the intro, the name as typed, the description heading right after the name, and the description as typed at the very end |
| CustomProject.ProjectMessageInjective | client/src/components/CustomProjectDialog.tsx:43 | with single-line names, different submissions give different messages |
| CustomProject.DialogIsNotTheSchema | client/src/components/CustomProjectDialog.tsx:34-41 | the blank check lets through a form the custom-project schema refuses, and refuses one the schema accepts |
| CustomProject.TrimsToEmpty | client/src/components/CustomProjectDialog.tsx:34 | `!s.trim()` holds exactly for text that is all whitespace |
| CustomProject.CustomProjectDialog.constructor | client/src/components/CustomProjectDialog.tsx:22-24 | both fields start empty |
| CustomProject.CustomProjectDialog.HandleSubmit | client/src/components/CustomProjectDialog.tsx:31-58 | a blank name or description opens nothing and changes nothing; otherwise the link for the template message is opened, both fields are cleared and the dialog closes |
| Auth.BearerToken | server/middleware/auth.ts:10-14 | there is a token exactly when the header is present and starts with the exact prefix "Bearer ", and it holds no space |
| Auth.BearerTokenIsFirstWord | server/middleware/auth.ts:14 | the token is the text after the prefix, up to the next space or the end |
| Auth.SecondFieldExample | server/middleware/auth.ts:14 | "Bearer a b" carries the token "a" |
| Auth.ExactPrefixExamples | server/middleware/auth.ts:10-14 | "bearer a", "Bearer" and no header carry no token, while "Bearer " carries the empty one |
| Auth.ClientHeaderRoundTrip | server/middleware/auth.ts:30-36 | the header the attached client sends gives the same token back |
| Auth.Authenticate | server/middleware/auth.ts:7-42 | the three 401 messages and the way through each hold exactly in their own case; a request that goes through carries the header's token and the user the service returned for it |
| Auth.NoTokenNeverVerifies | server/middleware/auth.ts:10-12 | without a usable header the answer is the no-token 401, whatever the identity service would say |
| Auth.AuthenticatedHeader | server/middleware/auth.ts:10-27 | an authenticated request's header is "Bearer ", then the token, then a space or the end |
| Auth.Request.RequireAuth | server/middleware/auth.ts:7-42 | `next` is reached exactly when the token was verified, and then the user, the token and a client sending the token are attached; otherwise the answer is 401 with the decision's message and the request is untouched |
| Storage.SingleOrNull | server/storage.ts:50-54 | the not-found code gives null, any other error is thrown with its message, and a row is returned as it is |
| Storage.SingleOrThrow | server/storage.ts:69 | any error is thrown with its message, and a row is returned |
| Storage.ListOrEmpty | server/storage.ts:39-40 | an error is thrown with its message, null data is the empty list, and other data is returned as it is |
| Storage.BuildUpdates | server/storage.ts:82-86 | the four conditional assignments build the update object of the declared update rule |
| Storage.InsertRecord | server/storage.ts:60-65 | the insert object has exactly the four writable columns, never an `id`, with camelCase fields renamed to snake_case |
| Storage.UpdateRecord | server/storage.ts:82-86 | the update object has only writable columns, never an `id`, and is empty when no field is defined |
| Storage.ToPublication | server/storage.ts:71-78 | the returned row renamed field by field from snake_case columns to camelCase |
| Storage.UpdateRecordKeys | server/storage.ts:82-86 | the update object has a column exactly when its field is defined, under the snake_case name and with the field's value, and never `id` |
| Storage.FullUpdateIsInsert | server/storage.ts:60-86 | insert and update rename alike: an update of all four fields writes exactly the insert object |
| Storage.InsertRoundTrip | server/storage.ts:57-79 | renaming on insert and projecting the returned row give back the inserted fields, with the table's id and creation time |
| Storage.UpdateRoundTrip | server/storage.ts:81-105 | after an update each defined field has its new value, and every other field, the id and the creation time are kept |
| Storage.WrittenPublication | server/storage.ts:69-78 | a returned row is projected to the publication, and an error is thrown with its message |
| Storage.DeletePublication | server/storage.ts:107-114 | a delete succeeds exactly when the database reports no error |
| Storage.GetAllPublications | server/storage.ts:33-41 | an error is thrown with its message, null data gives `[]`, and otherwise the rows are returned as read |
| Storage.GetPublication | server/storage.ts:43-55 | the not-found code gives null, any other error is thrown with its message, and a row is returned as read |
| Storage.GetSetting | server/storage.ts:117-129 | the not-found code gives null, any other error is thrown with its message, and a row is returned as read |
| Storage.GetAllSettings | server/storage.ts:145-152 | an error is thrown with its message, null data gives `[]`, and otherwise the rows are returned as read |
| Storage.GetPublicationOfTable | server/storage.ts:43-55 | reading one publication gives null exactly for an id the table lacks |
| Storage.UpdateOfMissingThrows | server/storage.ts:88-95 | an update of an absent id is thrown, not turned into null |
| Storage.SettingsTable.Upsert | server/storage.ts:131-143 | a refused write throws and changes nothing; otherwise the key holds the new value, every other key is untouched, and reading the key gives the new setting |
| Routes.GuardOutcomes | server/routes.ts:30 | a protected route answers 401 unless the token was verified, and then runs its handler with a client that sends that token |
| Routes.Guard | server/routes.ts:30 | the middleware's 401 with its error for an unverified request, and otherwise the handler run with the client for the verified token |
| Routes.NoTokenNoHandler | server/routes.ts:30-60 | without a usable header no protected handler runs, whatever it would do |
| Routes.ListPublications | server/routes.ts:9-16 | the rows read are sent as they are with 200, null data as the empty list, and an error as 500 |
| Routes.GetPublicationById | server/routes.ts:18-28 | 404 "Publication not found" exactly for the not-found code, 500 exactly for other errors, and otherwise the row with 200 |
| Routes.GetPublicationOfTable | server/routes.ts:18-28 | on a table, the answer is 404 exactly for an absent id, and a present id gets its row |
| Routes.CreatePublication | server/routes.ts:30-39 | a body the insert schema refuses is 400 and reaches no storage; an inserted row is 201 with the projected publication; a storage error is 400 |
| Routes.CreateCarriesFields | server/routes.ts:30-39 | a created publication carries the posted fields |
| Routes.UpdatePublication | server/routes.ts:41-50 | a body the update schema refuses is 400; otherwise the updated publication with 200, or 400 with the storage error |
| Routes.DeletePublication | server/routes.ts:52-60 | 204 with no body exactly when the delete succeeds, and 500 with the error otherwise |
| Routes.WhatsappSetting | server/routes.ts:63-70 | the stored number, or "5511999999999" when it is missing or empty, and 500 on any other error |
| Routes.WhatsappDefaultsAgree | server/routes.ts:66 | the number the server sends is never empty, so the pages' own fallback keeps it |
| Routes.SiteSettings | server/routes.ts:72-84 | an error on either read is 500, the title read first; otherwise each field is its stored value, or its default ("Meu Portfólio", an empty hero image) when the setting is missing or its value empty |
| Routes.SiteSettingsFieldByField | server/routes.ts:77-80 | each field falls back on its own: a stored title with no hero image keeps the title, and a stored empty title gives the default title |
| Routes.SiteSettingsStored | server/routes.ts:77-80 | a stored, non-empty title and hero image are sent as they are |
| Routes.LastValueSpec | server/routes.ts:91-95 | the last value of a key is missing exactly when no row has the key, and otherwise the value of a row with the key that no later row with the key follows |
| Routes.NameOf | server/routes.ts:92-94 | only the keys site_title, hero_image and whatsapp_number name a setting, each its own |
| Routes.SettingsMapIsLastValue | server/routes.ts:90-95 | each setting in the map holds the value of the last row with its key, and is missing when no row has it |
| Routes.SettingsMapOf | server/routes.ts:90-95 | the map the rows fill in one after another, each named row overwriting its entry; rows whose keys name no setting leave it empty |
| Routes.BuildSettingsMap | server/routes.ts:90-95 | the `forEach` loop builds the settings map of the declared rule |
| Routes.SettingsMapContents | server/routes.ts:90-95 | a setting is in the map exactly when some row has its key, and then it holds the value of the last such row |
| Routes.OtherKeysIgnored | server/routes.ts:91-95 | an example: a single row keyed "theme" gives the empty map (the general fact is `Routes.SettingsMapContents`) |
| Routes.LaterRowWins | server/routes.ts:91-95 | an example: two `site_title` rows, "A" then "B", give a title of "B" (the general fact is `Routes.SettingsMapContents`) |
| Routes.AllSettings | server/routes.ts:86-101 | the settings map of the rows with 200, an empty map for null data, and 500 on an error |
| Routes.SettingsWrites | server/routes.ts:105-116 | at most three upserts, each under one of the three fixed keys |
| Routes.RunWritesAccepted | server/routes.ts:108-118 | when no upsert is refused, every upsert is applied in order |
| Routes.RunWritesRefused | server/routes.ts:108-118 | when upsert k is the first refused, exactly the upserts before it are applied and upsert k's message is reported |
| Routes.RunWrites | server/routes.ts:108-118 | the upserts in order until the first refusal: a refusal is reported exactly when some upsert is refused, with that upsert's message |
| Routes.AppliedUntouched | server/routes.ts:108-116 | a key no upsert names keeps its value, or stays missing |
| Routes.AppliedLastWins | server/routes.ts:108-116 | a key holds the value of the last upsert that names it |
| Routes.RunAppend | server/routes.ts:108-121 | running two lists of upserts is running the first and then, unless it was refused, the second |
| Routes.PostSettingsAccepted | server/routes.ts:105-118 | when every upsert is accepted, each defined member is stored under its key, and every other key keeps its value or stays missing |
| Routes.PostSettingsRefused | server/routes.ts:108-121 | a refused title upsert writes nothing; a refused number upsert keeps the title and hero image already written |
| Routes.PostSettings | server/routes.ts:103-122 | the defined members are upserted in the order siteTitle, heroImage, whatsappNumber; the first refusal is 400 with its message, with earlier upserts kept and later ones not made; otherwise `{ success: true }` |
| Routes.PostSettingsRoute | server/routes.ts:103-122 | an unauthenticated request is 401 and writes nothing; an authenticated one writes with the client that carries its token |

## Left out

- I/O is not modelled: local storage, `window.open`, the network, react-query and Express. Each becomes a parameter or a result: the snapshot the cart is loaded from, the link the submit step returns, and the replies and policies of the database. Every handler is one sequential step.
- JSON text is not modelled. The stored cart is a snapshot of lines, not a JSON string. `JSON.parse` on a malformed entry throws in the code (`CartContext.tsx:19`) and is not caught, so no fail-open fallback to an empty cart is modelled. An empty-string entry counts as no entry.
- `CartContext.CartProvider.constructor`: a stored cart is taken as it is, without checking it against the cart schema, as the code does. So the invariant is not promised for a loaded cart.
- Toasts, `setLocation('/')` and the rendering are left out.
- The payment-method button list (`Checkout.tsx:86-91`) is presentation only.
- Floating point is replaced by integer cents. `parseFloat(monthlyPrice)` and the floating-point sum in `totalPrice` become exact sums. The model keeps every price and sum exact in cents, so `toFixed(2)` has nothing left to round; the rounding of a float sum is not modelled.
- `Strings.IntToString`: every whole number is written in plain decimal digits. From 10^21 on, JavaScript writes an exponent instead; that notation is not modelled.
- A price string that is not a number (which gives `NaN` in the code) cannot occur in the model.
- `CartItem.monthlyPrice` is a string in the cart schema (`shared/schema.ts:51`). The model holds it as cents, so the schema's string check on it is not modelled.
- `Cart.AddItemQuantity`, `Cart.AddItemTotals`, `Cart.RemoveItemTotals`, `Cart.UpdateQuantityTotals`: these require unique ids in the cart, which every cart built by the operations has. With duplicate ids, the `map` calls change several lines at once. The contracts of `Cart.AddItem`, `Cart.RemoveItem` and `Cart.UpdateQuantity` describe that case, but the totals lemmas do not.
- `Schema.ValidateCartItem`: quantities are real numbers. JavaScript's infinities and `NaN` are not modelled.
- The zod issue texts for the publication schemas are written out only for the missing-field and wrong-type cases. The 400 answer for a refused body is modelled as the list of issues, not as the JSON text of the zod error message.
- `Schema.ValidateInsertPublication`: each text and decimal column is checked only for being a string. The decimal format of `monthlyPrice` and any other check the table schema may add are not modelled.
- The custom-project dialog never applies `customProjectSchema`; it uses only the trim check. `CustomProject.DialogIsNotTheSchema` shows the two disagree.
- The phone number is put in the link without encoding. A configured number holding `?` or `#` can stop the text parameter from being read back: a `#` with no `?` before it always does (`WhatsApp.FragmentHidesMessage`, for example "55#1"), while a number such as "55?text=abc#" can give back a different text. So `WhatsApp.UrlCarriesMessage` and `Checkout.Submit` promise the round trip only for numbers without `?` and `#`.
- `UriEncoding.EncodeURIComponent`: strings are sequences of Unicode scalar values, so a lone surrogate cannot occur. The `URIError` that `encodeURIComponent` throws on a lone surrogate, which would end `onSubmit` and `handleSubmit` before the link is opened, is not modelled.
- Persisting the cart and loading it back hold by construction: the stored snapshot is the list of lines itself, not its JSON text, so no serialiser or parser round trip is modelled.
- The two GET routes send the table's snake_case rows. Create and update send the camelCase projection. The model keeps the two shapes apart (`Row`/`Rows` against `Written`).
- `getAllPublications` asks the database for the rows newest first, ordered by `created_at`. That order is left to the database: the rows are taken in the order the reply gives them, and no contract states it.
- A PATCH of an id with no row is answered 400 with the database's not-found message, not 404, as the code does.
- When one settings upsert is refused, earlier writes stay. There is no transaction.
- Settings values in a request body that are not strings (numbers, null) are not modelled: a member is either missing or a string.
- The first `createClient` call in `requireAuth` and the client construction cannot fail on their own. An exception anywhere in the `try` block is modelled as the identity service throwing.
- The user object the identity service returns is reduced to its id.
- The environment-variable check at the top of `server/storage.ts` is configuration, not request logic.
- The code's own behaviour is kept:
  - the cart is cleared right after `window.open`, whether or not the window opened;
  - a malformed stored cart makes the load throw rather than start empty;
  - a storage error on create is answered 400, not 500.

# Web-larek storefront: client-side state, modelled in Dafny

This project models the client-side state of the web-larek storefront, a
single-page shop. It covers:

- the shopping basket, with its running total;
- the order form and the order body sent to the server;
- the product instances and the registry they are appended to;
- the application controller's event handlers;
- the phone field's key filter and formatter, and the controller's phone normalisation;
- the string helpers `pascalToKebab`, `isSelector`, `isEmpty` and `bem`.

Each source file is one module:

| module | file | form |
|---|---|---|
| `Types` | `types.dfy` | value types: product, category, order draft, order body |
| `BasketModel` | `basket.dfy` | class `Basket` with fields `products` and `total`; the filter and the sum as functions |
| `OrderFormModel` | `order_form.dfy` | class `OrderForm` with the field `data`; `PrepareForApi` is a function reading form and basket |
| `ProductModel` | `product.dfy` | class `Product` with constant fields, class `Registry` for the shared product list |
| `PhoneFormat` | `phone.dfy` | pure functions and lemmas over strings |
| `Utils` | `utils.dfy` | pure functions and lemmas over strings |
| `App` | `app.dfy` | class `AppController`, one method per event name |

Prices are whole numbers. `Option<nat>` stands for `number | null`, and a
priceless product adds 0 to the total. The static `Product.products` array
becomes a `Registry` object that the controller creates and passes to every
product it constructs. `Product`'s own methods `addToCart`/`removeFromCart`
call `addProduct`/`removeProduct` on a `Cart` that `product.ts` imports; that
class is not part of this model. The controller hands every product the
`Basket` and calls the product's methods as `addToBasket`/`removeFromBasket`,
so the delegation is modelled once, against `Basket`'s
`addProduct`/`removeProduct`, under the names `AddToBasket`/`RemoveFromBasket`.

The event emitter (`components/base/events`) is not part of this model. Each
event is a method of `AppController`, and an event that a handler emits
(`basket:changed`, `success:close`) is a direct call. The controller's
observable effects are recorded in three fields:

- `renders`: the render instructions sent to the views;
- `header`: the header's basket counter text;
- `posted`: every order body handed to the POST request.

Four facts about the code shape the model:

- The order form has no `validate()` and no field rules. Validity comes only
  from the browser's form constraints.
- `contacts:submit` empties the basket at once, whether or not the request
  succeeds.
- The order form is never reset.
- Events reach each handler directly. The model has no screen state machine.

## Model

| member | source | states |
|---|---|---|
| Types.ParseCategory | src/types/index.ts:50-55 | a recognised tag maps to the category whose tag it is |
| Types.CategoryTagRoundTrip | src/types/index.ts:50-55 | the five categories and their tags correspond one to one |
| BasketModel.PriceOf | src/components/models/basket.ts:17 | the fallback to 0 in the reduce: a null price counts 0, any other price counts itself |
| BasketModel.SumPrices | src/components/models/basket.ts:16-18 | the reduce's sum: 0 for no entries, and at least each entry's price |
| BasketModel.HasId | src/index.ts:67 | the `some` test: whether an entry carries the id |
| BasketModel.Without | src/components/models/basket.ts:11 | the filtered list is no longer than the basket, holds no entry with the id, and holds only basket entries |
| BasketModel.SumPricesAppend | src/components/models/basket.ts:15-19 | the total of a concatenation is the sum of the parts' totals |
| BasketModel.WithoutAppend | src/components/models/basket.ts:11 | removal works piecewise over a concatenation, so the remaining entries keep their order |
| BasketModel.WithoutAbsent | src/components/models/basket.ts:10-13 | removing an id that no entry carries leaves the list as it was |
| BasketModel.WithoutCount | src/components/models/basket.ts:11 | every entry with another id keeps its number of occurrences; entries with the id all go |
| BasketModel.Basket.constructor | src/components/models/basket.ts:2-3 | a new basket is empty with total 0 |
| BasketModel.Basket.AddProduct | src/components/models/basket.ts:5-8 | the product is appended after the earlier entries, even a duplicate id; the total is the sum of prices again, and grows by the product's price |
| BasketModel.Basket.RemoveProduct | src/components/models/basket.ts:10-13 | the entries are the filtered list, with no entry left for the id; the total is the sum of prices; an absent id changes neither entries nor total |
| BasketModel.Basket.CalculateTotal | src/components/models/basket.ts:15-19 | the total becomes the sum of entry prices, a null price counting 0; only the total is written, so a second call changes nothing |
| BasketModel.Basket.Clear | src/components/models/basket.ts:21-24 | no entries and total 0, so a second call changes nothing |
| OrderFormModel.Ids | src/components/models/orderForm.ts:30 | the ids of the entries, in entry order, one per entry |
| OrderFormModel.OrderForm.constructor | src/components/models/orderForm.ts:4 | a new form has all four fields unset |
| OrderFormModel.OrderForm.CurrentData | src/components/models/orderForm.ts:22-24 | the `orderData` getter: the four field values of the form |
| OrderFormModel.OrderForm.SetPayment | src/components/models/orderForm.ts:6-8 | the payment field takes the value; the other three are unchanged, so the last value set wins |
| OrderFormModel.OrderForm.SetAddress | src/components/models/orderForm.ts:10-12 | the address field takes the value; the other three are unchanged |
| OrderFormModel.OrderForm.SetEmail | src/components/models/orderForm.ts:14-16 | the email field takes the value; the other three are unchanged |
| OrderFormModel.OrderForm.SetPhone | src/components/models/orderForm.ts:18-20 | the phone field takes the value; the other three are unchanged |
| OrderFormModel.OrderForm.PrepareForApi | src/components/models/orderForm.ts:26-32 | set fields are copied and unset ones stay absent; total is the basket's total; items are the basket's ids in order, same length, duplicates included; form and basket are only read |
| ProductModel.ImageUrl | src/components/models/product.ts:17 | the image address is the CDN prefix, a slash, then the server's file name |
| ProductModel.Instantiate | src/components/models/product.ts:14-20 | id, title, description, category and price are copied unchanged; the image gets the CDN prefix |
| ProductModel.InstantiateAll | src/index.ts:160-162 | one instance value per response item, in response order |
| ProductModel.Find | src/index.ts:65 | the index of the first product with the id, or none exactly when no product has it |
| ProductModel.Registry.constructor | src/components/models/product.ts:5 | the registry starts empty |
| ProductModel.Product.constructor | src/components/models/product.ts:14-22 | the instance holds the copied fields with the prefixed image and is appended at the end of the registry, earlier entries kept |
| ProductModel.Product.AddToBasket | src/components/models/product.ts:24-26 | exactly this product is appended to its basket, and the total grows by its price |
| ProductModel.Product.RemoveFromBasket | src/components/models/product.ts:28-30 | the basket loses every entry with this product's id |
| ProductModel.Product.HasPrice | src/components/models/product.ts:32-34 | true exactly when the price is not null, so a price of 0 counts as priced; a product without a price adds 0 to the total |
| PhoneFormat.Digits | src/components/views/modals/form/contactsModalView.ts:77 | only digits remain, and there are no more of them than input characters |
| PhoneFormat.DigitsAppend | src/components/views/modals/form/contactsModalView.ts:77 | the global replace works piecewise over a concatenation, so the digits keep their order |
| PhoneFormat.DigitsMultiset | src/components/views/modals/form/contactsModalView.ts:77 | every digit of the input is kept as often as it occurs, and every other character is dropped |
| PhoneFormat.Substring | src/components/views/modals/form/contactsModalView.ts:93-105 | `substring` with the ends clamped: the slice itself when the end is within the string, the rest of the string when only the start is, and empty when the start is past the end of the string |
| PhoneFormat.Group | src/components/views/modals/form/contactsModalView.ts:92-106 | one `if` of the layout: a separator and a slice, only when the digits reach past the slice's start |
| PhoneFormat.Layout | src/components/views/modals/form/contactsModalView.ts:90-106 | `+7 (` followed by the four groups; LayoutShape gives its closed form for each length |
| PhoneFormat.PhoneDigits | src/components/views/modals/form/contactsModalView.ts:77-87 | only the input's digits are used; a 7 goes in front when they are non-empty and do not start with 7; at most 11 are kept |
| PhoneFormat.StripTrailing | src/components/views/modals/form/contactsModalView.ts:109 | the clean-up removes the last character exactly when it is not a digit, `+`, `(`, `)`, whitespace or `-`, and otherwise returns the input |
| PhoneFormat.FormatPhone | src/components/views/modals/form/contactsModalView.ts:90 | the formatted value always starts with `+7 (` |
| PhoneFormat.LayoutClean | src/components/views/modals/form/contactsModalView.ts:90-109 | the built string ends in `(` or a digit, so the clean-up never changes it |
| PhoneFormat.FormatIsLayout | src/components/views/modals/form/contactsModalView.ts:77-109 | the formatted value is the layout of the phone digits |
| PhoneFormat.FormatNoDigits | src/components/views/modals/form/contactsModalView.ts:77-90 | empty or digit-free input yields `+7 (` |
| PhoneFormat.LayoutShape | src/components/views/modals/form/contactsModalView.ts:90-106 | the layout for each range of digit counts |
| PhoneFormat.FormatEleven | src/components/views/modals/form/contactsModalView.ts:92-106 | the digits `7abcdefghij` give `+7 (abc) def-gh-ij` |
| PhoneFormat.LayoutPrefix | src/components/views/modals/form/contactsModalView.ts:92-106 | fewer digits give a prefix of the complete layout of any eleven-digit extension |
| PhoneFormat.FormatPrefix | src/components/views/modals/form/contactsModalView.ts:92-106 | a shorter digit string gives the matching prefix of the full `+7 (abc) def-gh-ij` layout |
| PhoneFormat.LayoutDigits | src/components/views/modals/form/contactsModalView.ts:90-106 | the digits of a layout are the laid-out digits, with the fixed leading 7 |
| PhoneFormat.DigitsOfFormat | src/components/views/modals/form/contactsModalView.ts:77-106 | the formatted value's digits are the phone digits, or a lone 7 when there were none |
| PhoneFormat.FormatIdempotent | src/components/views/modals/form/contactsModalView.ts:77-106 | formatting an already formatted value returns it unchanged |
| PhoneFormat.StripLeading | src/index.ts:135 | an anchored replace removes the first character exactly when it is the given one, and otherwise returns the input |
| PhoneFormat.NormalizePhone | src/index.ts:134-135 | the stored phone is `+7` then digits; the input's digits are those digits with `78`, `7`, `8` or nothing in front, according to how the input's digits start |
| PhoneFormat.NormalizeFormatted | src/index.ts:134-135 | for a formatted value whose digit after the leading 7 is not 8, normalisation gives `+7` and the digits after that 7 |
| PhoneFormat.NormalizeFormattedEight | src/index.ts:134-135 | for a formatted value whose area code starts with 8, that 8 is stripped as well: `+7 (800) 555-35-35` is stored as `+7005553535` |
| PhoneFormat.TrunkEightDropsLastDigit | src/components/views/modals/form/contactsModalView.ts:80-87 | eleven digits typed with a leading 8 reach the form as `+7` and the 2nd to 10th digits; the last digit is lost |
| PhoneFormat.KeyBlocked | src/components/views/modals/form/contactsModalView.ts:58-73 | the seven editing and arrow keys pass; a one-character key is blocked exactly when the formatter would drop it, so only the single digits 0-9 pass; other keys are blocked |
| Utils.IsHyphenTrigger | src/utils/utils.ts:6 | the class `[a-z0–9]` as written: `a`-`z`, `0`, the en dash and `9` |
| Utils.LowerChar | src/utils/utils.ts:6 | each capital becomes its own lower-case letter (code point plus 32); other characters are kept |
| Utils.ToLower | src/utils/utils.ts:6 | same length, each character lower-cased on its own, no capital left |
| Utils.InsertHyphens | src/utils/utils.ts:6 | the global replace of a trigger followed by a capital by the pair with a hyphen between, resuming after the pair |
| Utils.InsertHyphensOnlyAddsHyphens | src/utils/utils.ts:6 | with hyphens removed, input and output agree |
| Utils.InsertHyphensKeepsInput | src/utils/utils.ts:6 | the input is a subsequence of the output; with the row above, the replace only inserts hyphens |
| Utils.InsertHyphensNoPair | src/utils/utils.ts:6 | for every input, no trigger character is left directly before a capital |
| Utils.InsertHyphensPlacement | src/utils/utils.ts:6 | for input without hyphens, every hyphen of the output stands between a trigger and a capital |
| Utils.InsertHyphensNoUpper | src/utils/utils.ts:6 | a string without capitals gets no hyphen |
| Utils.PascalToKebab | src/utils/utils.ts:5-7 | the output has no capital letters; where its hyphens go is stated by InsertHyphensNoPair, InsertHyphensPlacement and PascalToKebabHyphens |
| Utils.PascalToKebabIntended | src/utils/utils.ts:6 | the same with the class `[a-z0-9]` |
| Utils.PascalToKebabHyphens | src/utils/utils.ts:5-7 | for input without hyphens, every hyphen of the result follows a character of the class and precedes a lower-cased capital |
| Utils.PascalToKebabNoUpper | src/utils/utils.ts:5-6 | a string without `A`-`Z` is returned unchanged |
| Utils.PascalToKebabKeepsLetters | src/utils/utils.ts:6 | apart from the inserted hyphens, the output is the input lower-cased |
| Utils.ExampleHyphens | src/utils/utils.ts:3-6 | every word shaped like `MyClassName` gets its hyphens before `C` and `N` |
| Utils.ExampleLower | src/utils/utils.ts:6 | `My-Class-Name` lower-cases to `my-class-name` |
| Utils.PascalToKebabExample | src/utils/utils.ts:3 | `MyClassName` becomes `my-class-name` |
| Utils.PascalToKebabDigitBeforeCapital | src/utils/utils.ts:6 | of the digits, only `0` and `9` get a hyphen before a capital |
| Utils.PascalToKebabIntendedDigitBeforeCapital | src/utils/utils.ts:6 | with the intended class every digit gets a hyphen before a capital |
| Utils.DigitWordHyphens | src/utils/utils.ts:6 | in words shaped like `Item1Name`, the digit gets a hyphen only when it is `0` or `9` |
| Utils.DigitWordHyphensIntended | src/utils/utils.ts:6 | with the intended class, such words always get the hyphen |
| Utils.PascalToKebabItem1Name | src/utils/utils.ts:6 | `Item1Name` gives `item1name` as written and `item1-name` as intended |
| Utils.IsSelector | src/utils/utils.ts:13-15 | true implies a string, as the type guard promises; a string passes exactly when it has at least two characters |
| Utils.BemSelectorIsSelector | src/utils/utils.ts:13-15 | the class selector `bem` builds for a non-empty block always passes `isSelector` |
| Utils.IsEmpty | src/utils/utils.ts:20-22 | null and undefined are empty; booleans, numbers, strings and objects are not, whatever their value |
| Utils.EmptyIsFalsy | src/utils/utils.ts:20-22 | every empty value is falsy, and the falsy values that are not empty are exactly `false`, `0` and `""` |
| Utils.Truthy | src/utils/utils.ts:91-92 | the `if (element)` test on an optional string: present and non-empty |
| Utils.Bem | src/utils/utils.ts:89-97 | the name is the block, then `__element` if the element is non-empty, then `_modifier` if the modifier is non-empty; the class is `.` followed by the name |
| Utils.BemExample | src/utils/utils.ts:87 | `bem("button", "icon", "active")` is `button__icon_active` with class `.button__icon_active` |
| App.NatToString | src/index.ts:78 | the counter text is non-empty, all digits, without a leading zero |
| App.NatToStringRoundTrip | src/index.ts:78 | the counter text reads back as the basket length |
| App.AppController.Lookup | src/index.ts:65 | the product found is the first registered one with the id; none is found exactly when no registered product has it |
| App.AppController.constructor | src/index.ts:36-57 | empty basket, unset order form, empty registry; nothing rendered or posted yet |
| App.AppController.ProductClicked | src/index.ts:64-70 | an unknown id does nothing; otherwise the first match is rendered, marked in the basket exactly when some entry has the id |
| App.AppController.ProductAddToBasket | src/index.ts:73-80 | a known id adds exactly one entry, renders the card as in the basket and sets the counter to the new length; an unknown id changes nothing |
| App.AppController.ProductRemoveFromBasket | src/index.ts:83-95 | a known id removes all its entries, sets the counter to the length and re-renders the basket list; the card is re-rendered as not in the basket only when the removal did not come from the basket list; an unknown id changes nothing |
| App.AppController.BasketChanged | src/index.ts:98-100 | the basket list is rendered from the current entries and total |
| App.AppController.BasketOpen | src/index.ts:103-105 | the basket list is rendered from the current entries and total |
| App.AppController.OrderOpen | src/index.ts:108-110 | the payment and address step is rendered |
| App.AppController.ContactsOpen | src/index.ts:113-115 | the email and phone step is rendered |
| App.AppController.OrderPayment | src/index.ts:118-120 | only the payment field changes, to the payload value |
| App.AppController.OrderAddress | src/index.ts:123-125 | only the address field changes, to the payload value |
| App.AppController.ContactsEmail | src/index.ts:128-130 | only the email field changes, to the payload value |
| App.AppController.ContactsPhone | src/index.ts:133-137 | only the phone field changes, to the normalised payload, which starts with `+7` |
| App.AppController.SubmitOrder | src/index.ts:174-178 | the order body built from the current form and basket is handed to the request |
| App.AppController.ContactsSubmit | src/index.ts:140-143 | the body is taken before the basket is cleared, so it keeps the old ids and total; afterwards the basket is empty with total 0, the counter is `0` and the form is unchanged |
| App.AppController.SuccessClose | src/index.ts:146-149 | the basket is empty with total 0 and the counter is `0`, so repeating it changes nothing |
| App.AppController.LoadProducts | src/index.ts:155-169 | a successful load appends one product per response item, in response order, after the earlier ones and renders the catalogue; a failed load changes nothing |

## Findings

| source | as written | input that shows it | evidently intended | confidence | as-written member | corrected member |
|---|---|---|---|---|---|---|
| src/utils/utils.ts:6 | the class `[a-z0–9]` has an en dash, so it holds only `a`-`z`, `0`, the en dash and `9` | `Item1Name` gives `item1name` | the class `[a-z0-9]`, giving `item1-name` | high, not executed | Utils.PascalToKebabItem1Name | Utils.PascalToKebabIntendedDigitBeforeCapital |

The as-written `Utils.PascalToKebab` is the helper as the source has it.
`Utils.PascalToKebabDigitBeforeCapital` shows that only `0` and `9` trigger
a hyphen. The corrected `Utils.PascalToKebabIntended` hyphenates after every
digit. No other part of the model calls either helper.

## Left out

- The event emitter itself is not part of this model: multiple handlers per event, their order and unsubscription. Nested emits are direct calls.
- Network I/O and its timing are left out. The product request's outcome is a parameter of `LoadProducts`. The order request is recorded as the body handed to it. The success modal that renders the server's `total` and the `console.error` logging are not modelled.
- All DOM views are left out: templates, modals, listeners, price labels and category styles. A render instruction records only what the controller passes to a view.
- Form validity comes from the browser (`checkValidity`, `validity.valid`) and is not modelled. So is the fact that a field event is only emitted when the browser finds the input valid. The handlers accept any payload.
- The `setTimeout` cursor placement after formatting is timer and DOM work and is left out.
- `CDN_URL` is built from the deployment environment. `ProductModel.CdnUrl` is a fixed stand-in string.
- Prices are whole numbers. JavaScript's floating-point arithmetic on prices is not modelled.
- The DOM and reflection helpers of `utils.ts` are left out: `ensureAllElements`, `ensureElement`, `cloneTemplate`, `getObjectProperties`, `setElementData`, `getElementData`, `isPlainObject`, `isBoolean`, `createElement`.
- OrderFormModel.OrderForm.CurrentData: returns the field values as a value. The getter returns the live object, which a caller could then mutate; that aliasing is not modelled.
- Utils.PascalToKebab: lower-cases only `A`-`Z`. JavaScript's `toLowerCase` also lower-cases non-ASCII capitals, such as Cyrillic letters.
- Utils.IsSelector, Utils.IsEmpty, Utils.EmptyIsFalsy: JavaScript values are modelled as undefined, null, booleans, integers, strings and one opaque object value. `NaN`, `-0` and BigInt `0n`, which are also falsy, are outside that domain, so the falsy non-empty values EmptyIsFalsy lists are those of the modelled domain.
- Strings are sequences of Unicode code points. JavaScript's `length` counts UTF-16 code units, so a character outside the Basic Multilingual Plane counts 1 here and 2 there: `isSelector` accepts a one-emoji string, `Utils.IsSelector` does not.
- The basket holds `ProductData` values, while `Product.addToBasket` pushes the `Product` instance itself (src/components/models/product.ts:25, src/components/models/basket.ts:6). Instances are never changed after construction, so the values agree with what the instances would hold; object identity is not modelled.
- PhoneFormat.IsJsSpace: lists the whitespace characters of JavaScript's `\s`. The clean-up never fires on the formatter's output, so the list does not affect any result.

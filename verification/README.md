# Storefront rules, modelled in Dafny

A model of the decision logic inside the event handlers of a small browser
storefront: registration and login against a user list kept in the browser's
key-value store, the shopping cart (quantities, removal, total), the favorites
list, and the home screen's drawer switch. Each handler becomes a pure function
over immutable records (`seq<User>`, `seq<Item>`, strings as `seq<char>`); the
store is an abstract `map<string, Value>`; a navigation is an outcome value
(`Stay` or `NavigateTo(screen)`) instead of a delayed router call.

Modules, in dependency order:

- `Wrappers` (wrappers.dfy): `Option`.
- `Navigation` (navigation.dfy): screens and navigation outcomes.
- `Records` (records.dfy): `User`, `Item`, and `findIndex` by id.
- `Storage` (storage.dfy): the key-value store, its keys, and saving a list so that state and store agree.
- `Credentials` (credentials.dfy): the e-mail and password patterns, and lookups of users by e-mail.
- `Strength` (strength.dfy): the password-strength meter.
- `Register` (register.dfy): the error map, the submit button rule, and the submit decision.
- `Login` (login.dfy): the login decision and the register-then-login round trip.
- `Home` (home.dfy): the drawer toggle, "+"/"-" on cart items, the total.
- `CartPanel` (cart.dfy): the cart panel's quantity change and removal.
- `Favorites` (favorites.dfy): the favorites toggle.

The two quantity-change handlers really differ, and the model keeps both.
The home screen changes every item with the id and floors "-" at one
(`Math.max(q - 1, 1)`). The cart panel changes only the first item with the id
and skips a change that would go below one. `CartPanel.AgreesWithHome` proves
that they agree for +1 and -1 on carts with distinct ids and positive
quantities. They differ on repeated ids, where the home screen changes every
match and the panel only the first (`CartPanel.RepeatedIdDiffers`), and on
quantities below one, which the home screen floors and the panel leaves alone.
`CartPanel.SkipNotFloor` illustrates the panel's skip rule: with quantity 2 and
a change of -5 the quantity stays 2, so a total of 20 stays 20. Neither handler
removes an item at its last unit; only the remove button takes an item out of
the cart.

## Model

| member | source | states |
|---|---|---|
| `Records.FindIndex` | src/components/cart/cart.jsx:11 | the index is the first item with the id, and there is none exactly when no item has the id |
| `Storage.Save` | src/components/localStorage.js:1-3 | the key then holds the value, and every other key is unchanged |
| `Storage.LoadUsers` | src/auth/register.jsx:38 | with no stored user list, the list read is empty |
| `Storage.LoadItems` | src/components/home.jsx:26-29 | with nothing stored under the key, the list read is empty |
| `Storage.Commit` | src/components/home.jsx:91-92 | the list read back from the store is exactly the list put in state, and other keys are unchanged |
| `Storage.LoadSavedUsers` | src/components/localStorage.js:1-8 | reading the users after saving them gives back what was saved |
| `Credentials.ValidateEmail` | src/auth/register.jsx:40 | accepts exactly one or more of `[a-zA-Z0-9._%+-]` followed by exactly "@gmail.com" |
| `Credentials.ValidatePassword` | src/auth/register.jsx:41 | accepts exactly strings of at least 8 characters that are all ASCII digits |
| `Credentials.EmailUsed` | src/auth/register.jsx:43 | true exactly when some stored user's e-mail equals the input |
| `Credentials.FirstWithEmail` | src/auth/login.jsx:24 | the position of the first user with the e-mail, absent exactly when the e-mail is unused |
| `Credentials.FindByEmail` | src/auth/login.jsx:24 | returns a stored user with that e-mail, the first such, and nothing exactly when the e-mail is unused |
| `Credentials.FindAfterAppend` | src/auth/register.jsx:91 | after appending a user with an unused e-mail, the lookup of that e-mail finds that user, and other lookups are unchanged |
| `Credentials.FindUnderDistinct` | src/auth/login.jsx:24-26 | with distinct e-mails, the lookup finds a user with a given e-mail and password exactly when that pair is stored |
| `Strength.Classify` | src/auth/register.jsx:122-127 | unrated exactly below the minimum password length (8), weak exactly for 8 to 10 characters, medium exactly for 11 to 15, strong exactly above 15 |
| `Strength.Color` | src/auth/register.jsx:129-140 | gray exactly when unrated |
| `Strength.ColorsDistinct` | src/auth/register.jsx:131-138 | the four ratings get four different colours |
| `Strength.Progress` | src/auth/register.jsx:189-199 | a percentage; 0 exactly when unrated and 100 exactly when strong |
| `Strength.Caption` | src/auth/register.jsx:181-187 | empty exactly when the meter is gray, and shown only with a non-empty bar |
| `Strength.ClassifyMonotone` | src/auth/register.jsx:122-127 | a longer password never rates lower |
| `Strength.ProgressStrictlyMonotone` | src/auth/register.jsx:191-198 | a higher rating shows a strictly fuller bar |
| `Strength.ValidPasswordIsRated` | src/auth/register.jsx:123 | a password that passes validation is always rated and shows a non-empty bar |
| `Register.HandleValidation` | src/auth/register.jsx:45-81 | e-mail: error "must end with @gmail.com" when invalid, "already registered" when used, cleared otherwise; password: error exactly when invalid, and a mismatch error exactly when a confirmation is typed and differs; confirmation: mismatch error exactly when it differs from the password; keys of other fields untouched |
| `Register.Edit` | src/auth/register.jsx:150-224 | an edit changes only its own input, its error map becomes exactly the result of `HandleValidation` on the new value, and the error map stays sound (no filled-in input without an error is unacceptable) |
| `Register.SubmitDisabled` | src/auth/register.jsx:229-235 | the button is enabled exactly when all three inputs are filled, no field carries an error, and the e-mail is not stored |
| `Register.CanRegister` | src/auth/register.jsx:84-89 | the four-part acceptance condition (e-mail matches the pattern, password matches the pattern, confirmation equal, e-mail not stored) is its body; its contract states the consequences that an accepted e-mail is longer than the domain suffix and not stored, and an accepted password has at least 8 characters and equals its confirmation; `Register.Submit` uses it as its acceptance test |
| `Register.EditsKeepSound` | src/auth/register.jsx:45-81 | any sequence of edits keeps the error map sound |
| `Register.EnabledSubmitAccepts` | src/auth/register.jsx:229-235 | after any typing from the empty form, an enabled submit button means the submission passes every check |
| `Register.TypedAcceptableEnables` | src/auth/register.jsx:150-235 | conversely, typing an acceptable e-mail, then a valid password, then the same password again enables the submit button |
| `Register.Submit` | src/auth/register.jsx:83-109 | appends exactly `{email, password}` when the e-mail is valid and unused, the password valid, and the confirmation equal; otherwise the store is unchanged; other keys untouched; distinct e-mails stay distinct; goes to login exactly when accepted or the e-mail is taken, with an alert exactly when taken |
| `Register.SecondRegistrationRejected` | src/auth/register.jsx:99-107 | `handleSubmit` called with an already stored e-mail stores nothing, alerts and goes to login |
| `Register.EnabledSubmitNeverTaken` | src/auth/register.jsx:229-235 | whenever the button can be pressed, submitting raises no taken-e-mail alert, and a press that stores nothing stays on the screen |
| `Register.SecondTimeButtonDisabled` | src/auth/register.jsx:234 | a second registration of an e-mail is blocked by the disabled button |
| `Login.Submit` | src/auth/login.jsx:23-45 | goes home exactly when the first user with the e-mail has the typed password; every failure sets "Invalid email or password"; redirects to registration, with the banner, exactly when no user has the e-mail; a wrong password for a known e-mail stays |
| `Login.WrongPasswordStays` | src/auth/login.jsx:33-43 | a known e-mail with a wrong password gives the error, no banner and no redirect |
| `Login.LoginAcceptsStoredPairs` | src/auth/login.jsx:24-26 | with distinct stored e-mails, login succeeds exactly for a stored e-mail and password pair |
| `Login.RegisterThenLogin` | src/auth/login.jsx:24-32 | after a successful registration, login with the same e-mail and password reaches home, and any other password fails without redirect |
| `Login.RegisterThenWrongPassword` | src/auth/login.jsx:33-42 | on an empty store, registering a@gmail.com/12345678 stores it, and logging in with 00000000 fails in place |
| `Home.ToggleDrawer` | src/components/home.jsx:76-78 | the result is closed exactly when the pressed drawer was open, and otherwise is the pressed drawer |
| `Home.ToggleTwiceCloses` | src/components/home.jsx:76-78 | pressing the same drawer twice, starting from any other state, ends closed |
| `Home.Bump` | src/components/home.jsx:85-87 | "+" adds one; "-" gives at least one, removing one above one and giving one at or below it |
| `Home.QuantityChange` | src/components/home.jsx:80-90 | same length and order; every item with the id gets the new quantity, every other item is unchanged, no product data changes |
| `Home.DecrementFloorsAtOne` | src/components/home.jsx:87 | after "-", every item with the id has quantity at least one, whatever it was |
| `Home.QuantityChangeKeepsPositive` | src/components/home.jsx:81-90 | if all quantities are at least one, they still are after "+" or "-" |
| `Home.DecrementDisabled` | src/components/home.jsx:244 | when "-" is disabled (quantity one) pressing it would change nothing; when enabled on a positive quantity it removes exactly one |
| `Home.DecrementButtonRule` | src/components/home.jsx:241-247 | on a cart with distinct ids and positive quantities, "-" at quantity one changes nothing and above one removes exactly one |
| `Home.Total` | src/components/home.jsx:96 | 0 for an empty cart, price times quantity for a single item, non-negative when prices and quantities are |
| `Home.TotalAppend` | src/components/home.jsx:96 | the total of two carts laid end to end is the sum of their totals |
| `Home.CalculateTotalPrice` | src/components/home.jsx:95-97 | the reduce equals the sum of price times quantity, is 0 for an empty cart, and is non-negative for non-negative prices and quantities |
| `Home.IncrementTotal` | src/components/home.jsx:80-97 | "+" raises the total by the unit price of each item with the id |
| `Home.DecrementTotal` | src/components/home.jsx:80-97 | "-" on items above one lowers the total by the unit price of each item with the id |
| `Home.HandleQuantityChange` | src/components/home.jsx:80-93 | the cart put in state and in the store is exactly `QuantityChange` of the old cart, of the same length, and other keys are untouched |
| `CartPanel.ChangeQuantity` | src/components/cart/cart.jsx:9-19 | same length; only the first item with the id can change; it becomes q + change when that is at least one and otherwise the cart is unchanged; an unknown id changes nothing; positive quantities stay positive |
| `CartPanel.SkipNotFloor` | src/components/cart/cart.jsx:15-18 | quantity 2 with change -5 stays 2 and the total stays 20 |
| `CartPanel.RepeatedIdDiffers` | src/components/cart/cart.jsx:11-18 | on two items with the same id, the panel's +1 raises only the first while the home screen's "+" raises both |
| `CartPanel.AgreesWithHome` | src/components/cart/cart.jsx:11-18 | with distinct ids and positive quantities, +1/-1 gives the same cart as the home screen's "+"/"-" |
| `CartPanel.RemoveFromCart` | src/components/cart/cart.jsx:27 | no item with the id remains; an item is kept exactly when it was in the cart with another id; an unknown id changes nothing |
| `CartPanel.RemoveDistributes` | src/components/cart/cart.jsx:27 | removing from a concatenation removes from each part, keeping the survivors in their original order |
| `CartPanel.RemoveIdempotent` | src/components/cart/cart.jsx:27 | removing twice is removing once |
| `CartPanel.RemoveKeepsInvariants` | src/components/cart/cart.jsx:27 | removal keeps ids distinct and quantities positive |
| `CartPanel.HandleChangeQuantity` | src/components/cart/cart.jsx:9-23 | the cart put in state and in the store is exactly `ChangeQuantity` of the old cart, of the same length, and other keys are untouched |
| `CartPanel.HandleRemoveFromCart` | src/components/cart/cart.jsx:26-30 | the cart put in state and in the store is exactly `RemoveFromCart` of the old cart, holds no item with the id, and other keys are untouched |
| `Favorites.Toggle` | src/components/favoriute/favorite.jsx:9-19 | an absent id appends the item at the end; a present id removes exactly its first occurrence; the length changes by exactly one |
| `Favorites.ToggleTwiceRestores` | src/components/favoriute/favorite.jsx:15-18 | toggling an absent item twice gives back exactly the original list |
| `Favorites.ToggleKeepsDistinct` | src/components/favoriute/favorite.jsx:15-18 | toggling keeps favorite ids distinct |
| `Favorites.ToggleFlipsMembership` | src/components/favoriute/favorite.jsx:11-18 | with distinct ids, each toggle flips whether the item's id is present |
| `Favorites.ToggleTwiceSameIds` | src/components/favoriute/favorite.jsx:15-18 | with distinct ids, toggling a present item twice gives back the same set of ids |
| `Favorites.HandleAddToFavorites` | src/components/favoriute/favorite.jsx:9-23 | the list put in state and in the store is exactly `Toggle` of the old list, one longer or one shorter, and other keys are untouched |

## Left out

- Rendering, dialogs, snackbars, spinners (`loading`) and icon colours: UI with no decision in them.
- Timers: the delay before each navigation is dropped, and each press is modelled on its own as an outcome value. A redirect still pending from an earlier press is not modelled: the timers are never cancelled, so after a failed login with an unknown e-mail the redirect to registration still fires 3 s later even if a later login has meanwhile navigated home, and the screen the user ends on depends on the delays.
- `console.log` calls and the log list in src/components/localStorage.js:14-28: logging only.
- The import-time writes of src/components/localStorage.js:24-31, a log line and a hard-coded "user" session: side effects of loading the module, not a rule.
- JSON encoding: the store holds decoded values, and only the user list, the cart and the favorites are modelled as values; for strings and integers `JSON.parse(JSON.stringify(x))` is `x`. Corrupt stored text, which the source does not handle, is not modelled; a stored value of the wrong shape reads as an empty list, where the source would throw instead.
- JavaScript numbers: prices and quantities are unbounded integers (whole cents), so float rounding of price times quantity is not modelled.
- Strength.Classify: counts Dafny characters, while JavaScript's `length` counts UTF-16 code units; they differ only for characters outside the Basic Multilingual Plane. Such a password never passes validation, but its rating can differ.
- Login.Submit: returns no store, so "login never changes the user list" holds by its signature rather than by an ensures clause.
- The aliasing in src/components/cart/cart.jsx:10-17, where the shallow copy shares the item object that gets mutated: the model computes a fresh list.
- The `useEffect` alert of src/auth/register.jsx:115-120 and the session read of src/components/home.jsx:36-43: UI effects on render.
- `clearUserData` (src/auth/register.jsx:28-36): no control calls it.
- Logout and data reset (src/components/home.jsx:45-74): they remove the "user" session key and navigate; no list rule is involved.
- src/App.js: a static route table.

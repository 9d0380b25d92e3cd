# BookBuddies core in Dafny

BookBuddies is a React Native marketplace for used books. This project models the logic under its screens:

- the price and order-total arithmetic of `src/utils/calculations.js`;
- the four React contexts that keep lists and records in AsyncStorage:
  - the posted books and their per-user views;
  - the cart;
  - the favourites;
  - the user registry and its session;
- the screen handlers that read, rewrite and validate the same data.

## How the model is built

- **JavaScript values.** They are the datatype `Js.Json`: undefined, null, booleans, numbers, strings, objects and arrays.
  - A number is `Js.Num`: an exact `real`, or NaN.
  - An object is a `map<string, Json>`. Object spread is map union, with the right operand winning.
  - `===` is `Js.StrictEq`. Primitives compare by value and NaN equals nothing. Separately parsed objects are never the same reference, so they never compare equal.
- **Number conversions.** `JsNumber` holds JavaScript's conversions as functions over strings:
  - `parseFloat` is a longest-prefix scan of a decimal literal.
  - `parseInt` uses radix 10.
  - `Number()`, `toFixed(2)` and `String(n)` are modelled too.
  - `String(v)` of an array joins its elements with commas.
- **Storage.** AsyncStorage is the class `Storage.Store`. Its field `data` maps each key to a stored value: a list of objects, one record, or a value that does not parse.
  - A failed `setItem` or `removeItem` is an input of each operation. `Some(message)` means the call throws with that message.
- **Classes.** Every context and every screen with state is a class. Its fields are the React state.
  - Each handler is a method that modifies the object and the store.
  - The postconditions give the whole new state as a function of the old state.
  - Generated ids, timestamps and the answers to confirmation dialogs are parameters.
- **Pure code.** The search filters, the validators, the colour, icon and label maps and the price normalisations are functions. Lemmas relate them to each other.

Modules follow the source files:

| module | file |
|---|---|
| `Calculations` | src/utils/calculations.js |
| `Books` | src/context/BookContext.js |
| `Cart` | src/context/CartContext.js |
| `Favorites` | src/context/FavoritesContext.js |
| `Auth` | src/context/AuthContext.js |
| `BookDetail` | src/screens/BookDetailScreen.js |
| `CartScreen` | src/screens/CartScreen.js |
| `Explore` | src/screens/ExploreScreen.js |
| `Home` | src/screens/HomeScreen.js |
| `BookManagement` | src/screens/BookManagementScreen.js |
| `FavoritesScreen` | src/screens/FavoritesScreen.js |
| `PostBook` | src/screens/PostBookScreen.js |
| `SignupScreen` | src/screens/SignupScreen.js |
| `VerifyAccount` | src/screens/VerifyAccountScreen.js |
| `Contact` | src/screens/ContactScreen.js |
| `ExchangeHistory` | src/screens/ExchangeHistoryScreen.js |
| `OrderSummary` | src/screens/OrderSummaryScreen.js |
| `Profile` | src/screens/ProfileScreen.js |

Five modules are shared:

- `Js`: the value model.
- `JsNumber`: number conversions.
- `Storage`: the key-value store.
- `Collections`: the `filter`, `some`, `find` and merge-by-id operations the stores apply.
- `Catalogue`: the bundled book catalogue, its flattening and the case-insensitive search.

## Model

| member | source | states |
|---|---|---|
| Js.Prop | src/context/BookContext.js:30 | reading an absent property gives `undefined`; a present one gives its value |
| Js.Truthy | src/utils/calculations.js:22 | objects and arrays are truthy; a number exactly when it is neither 0 nor NaN; a string exactly when it is not empty |
| Js.StrictEq | src/context/FavoritesContext.js:47 | `===` is symmetric, implies equality, and never holds for NaN, an object or an array |
| Js.Or | src/utils/calculations.js:9 | `a \|\| b` is `a` when `a` is truthy and `b` otherwise |
| Js.NumOr | src/utils/calculations.js:22 | `n \|\| d` on numbers agrees with `\|\|` on the values |
| Js.NumAdd | src/utils/calculations.js:23 | a sum is a number exactly when both operands are; NaN absorbs |
| Js.NumMul | src/utils/calculations.js:23 | a product is a number exactly when both operands are |
| Js.StrictEqIsEquality | src/context/FavoritesContext.js:47 | `===` holds exactly when the values are equal and are not NaN, an object or an array |
| Js.TrimStart | src/screens/PostBookScreen.js:56 | the result is a suffix of the input; everything removed is white space; the result does not start with white space |
| Js.TrimEnd | src/screens/PostBookScreen.js:56 | the result is a prefix of the input; everything removed is white space; the result does not end with white space |
| Js.Trim | src/screens/PostBookScreen.js:56 | the result is no longer than the input and neither starts nor ends with white space; text that already does neither is returned as it is |
| Js.TrimEmptyIffAllWhite | src/screens/PostBookScreen.js:56 | `s.trim()` is empty exactly when every character of `s` is white space |
| Js.ToLower | src/screens/ExploreScreen.js:76 | lower-casing keeps the length and maps each character on its own |
| Js.ToUpper | src/screens/ExchangeHistoryScreen.js:73 | upper-casing keeps the length and maps each character on its own |
| Js.Includes | src/screens/ExploreScreen.js:78 | the empty text is included in every text; an included text is no longer than the text it is in |
| Js.OverrideTwo | src/context/AuthContext.js:82 | `{...o, a: x, b: y}` has keys of `o` plus `a` and `b`; those two hold `x` and `y`; every other field of `o` is kept |
| JsNumber.NatToStringValue | src/screens/PostBookScreen.js:35 | the decimal digits written for `n` denote `n` |
| JsNumber.FixedDigitsValue | src/utils/calculations.js:35 | the integer and fraction digits of a fixed-point text, read together, give back the scaled number |
| JsNumber.ScaleRoundTrip | src/utils/calculations.js:35 | scaling down by `10^k` undoes scaling up by `10^k` |
| JsNumber.SignedDigitsScan | src/utils/calculations.js:9 | the decimal scanner reads a sign/digits/point/fraction literal with at least one digit, integer digits or not (`12`, `1.5`, `3.`, `.5`), and nothing of the text after it, and gets its digits and exponent |
| JsNumber.ScanDecimal | src/utils/calculations.js:9 | the scanned prefix of a decimal literal is non-empty and lies within the text |
| JsNumber.ParseDecimalText | src/utils/calculations.js:9 | `parseFloat` of a decimal literal without exponent, including one that starts at its point such as `.5`, followed by any text that cannot continue it, is the literal's digits read as one integer, scaled down by the number of fraction digits, with the sign |
| JsNumber.ParseFloatWithoutDigits | src/utils/calculations.js:9 | `parseFloat` of text without a single digit is NaN |
| JsNumber.ParseFloat | src/utils/calculations.js:9 | `parseFloat` of empty or all-white-space text is NaN |
| JsNumber.ParseFixedString | src/utils/calculations.js:35 | `parseFloat` reads back exactly the value a fixed-point text denotes |
| JsNumber.ToFixed2 | src/utils/calculations.js:35 | `toFixed(2)` ends in a point and two digits, and starts with `-` exactly for negative values |
| JsNumber.ToFixed2RoundTrip | src/utils/calculations.js:35 | reading back `toFixed(2)` gives the value rounded to the nearest hundredth |
| JsNumber.Rounded2Close | src/utils/calculations.js:35 | the rounding moves a value by at most 0.005 |
| JsNumber.ToFixed2Exact | src/utils/calculations.js:35 | a whole number of hundredths is left unchanged by the rounding |
| JsNumber.NumberToStringRoundTrip | src/screens/PostBookScreen.js:35 | `parseFloat(String(v))` is `v` for every value that prints exactly |
| JsNumber.NumberToString | src/screens/PostBookScreen.js:35 | `String(n)` of a number is non-empty and starts with `-` exactly when the number is negative; it is written in plain decimal notation (see Left out) |
| JsNumber.ToJsString | src/screens/CartScreen.js:44 | `String(v)` of an empty array is empty, and of a one-string array is that string |
| JsNumber.WholeNumberText | src/screens/PostBookScreen.js:35 | a non-negative whole number prints as its plain digits |
| JsNumber.NegativeWholeNumberText | src/screens/PostBookScreen.js:35 | a negative whole number prints as `-` and its digits |
| JsNumber.ParseIntDigits | src/utils/calculations.js:22 | `parseInt` reads the digits of `n` back as `n` |
| JsNumber.ParseIntNegativeDigits | src/utils/calculations.js:22 | `parseInt` reads `-` and digits as the negative number |
| JsNumber.ParseIntInteger | src/utils/calculations.js:22 | `parseInt` of any whole number, negative ones included, is that number |
| JsNumber.ParseIntOfDigits | src/utils/calculations.js:22 | `parseInt` of a non-empty run of digits is the number they spell |
| JsNumber.ParseIntWholeNumber | src/screens/CartScreen.js:44 | `parseInt` of a non-negative whole number gives the number back |
| JsNumber.ParseIntString | src/utils/calculations.js:22 | `parseInt` of a string only ever yields whole numbers or NaN; blank text gives NaN |
| JsNumber.ParseIntJson | src/screens/CartScreen.js:44 | `parseInt` of any value only ever yields whole numbers or NaN |
| JsNumber.ParseFloatOfWord | src/screens/PostBookScreen.js:64 | text starting with anything but white space, a sign, a digit or a point gives NaN |
| JsNumber.ToNumber | src/screens/BookDetailScreen.js:178 | `Number(v)` keeps a number, and gives NaN for `undefined` and objects |
| JsNumber.JsPlus | src/screens/BookDetailScreen.js:98 | `+` adds two numbers and joins text when the left operand is a string |
| JsNumber.StringToNumber | src/screens/BookDetailScreen.js:178 | `Number(s)` of blank text is 0 |
| Storage.ListOrEmpty | src/screens/BookDetailScreen.js:75 | `stored ? JSON.parse(stored) : []`: a missing key is the empty list, a stored list is itself, anything else throws |
| Storage.Store.SetItem | src/context/CartContext.js:27 | a successful write sets exactly that key; a failed write changes nothing and reports the failure |
| Storage.Store.RemoveItem | src/context/CartContext.js:48 | a successful removal deletes exactly that key; a failed one changes nothing |
| Storage.Store.ReadList | src/context/CartContext.js:15-17 | absent exactly when the key is missing; a found list is what the key holds; unreadable only for a key that holds no list |
| Collections.Matching | src/context/BookContext.js:30 | `filter(x => x.f === v)`: exactly the matching elements, as an order-preserving subsequence |
| Collections.Without | src/context/BookContext.js:126 | `filter(x => x.f !== v)`: exactly the non-matching elements, as an order-preserving subsequence |
| Collections.FindFirst | src/screens/BookDetailScreen.js:96 | `find`: the first matching index, no earlier element matching; none when no element matches |
| Collections.MergeWhere | src/context/BookContext.js:100-102 | merge-by-id keeps length and order, leaves non-matching entries alone, and overlays the patch on matching ones, keeping their other fields |
| Collections.FindFirstIffAny | src/context/FavoritesContext.js:47 | `find` finds something exactly when `some` holds |
| Collections.FiltersPartition | src/context/BookContext.js:126 | the kept and the removed elements together are the list, counted with multiplicity |
| Collections.WithoutAbsent | src/context/BookContext.js:126 | removing an id nobody has leaves the list as it is |
| Collections.WithoutRemovesAll | src/context/FavoritesContext.js:37 | after removing an id, no element has it |
| Collections.WithoutIdempotent | src/context/FavoritesContext.js:37 | removing an id twice is removing it once |
| Collections.WithoutAppendFresh | src/context/BookContext.js:126 | removing the key of an appended element that no earlier element has gives back the list before the append |
| Collections.MergeAbsent | src/context/BookContext.js:100-102 | merging into an id nobody has leaves the list as it is |
| Collections.AnyMatchAppend | src/context/FavoritesContext.js:26 | after appending `x`, `some` finds `x`'s key exactly when it found it before or the key is `===`-comparable |
| Collections.MatchingAppend | src/screens/ExploreScreen.js:71 | filtering a concatenation is concatenating the filtered parts |
| Collections.SubsequenceTransitive | src/screens/ExploreScreen.js:67-84 | two filters in a row still give an order-preserving subsequence of the original |
| Collections.SubsequenceReflexive | src/screens/ExploreScreen.js:67 | an unfiltered list is a subsequence of itself |
| Catalogue.Flatten | src/screens/HomeScreen.js:108 | `Object.values(booksData).flat()` holds exactly the books of the categories |
| Catalogue.FlattenAppend | src/screens/HomeScreen.js:108 | each category's books come after those of the categories before it |
| Catalogue.MatchesQuery | src/screens/ExploreScreen.js:77-81 | a match means some searched field holds the query; a non-string field that must be read throws |
| Catalogue.MatchesQueryOnText | src/screens/ExploreScreen.js:77-81 | when the fields are strings, a book matches exactly when one of them includes the query |
| Catalogue.SearchFilter | src/screens/HomeScreen.js:116-119 | the search throws exactly when some book's test throws; otherwise it keeps exactly the matching books, in order |
| Calculations.StripPrice | src/utils/calculations.js:9 | the regex replace keeps only digits, `.` and `-`, and never lengthens the text |
| Calculations.StripPriceAppend | src/utils/calculations.js:9 | stripping distributes over concatenation: it works wherever the characters occur |
| Calculations.StripPriceKeeps | src/utils/calculations.js:9 | text made only of price characters is left as it is |
| Calculations.StripPriceIdempotent | src/utils/calculations.js:9 | stripping twice is stripping once |
| Calculations.StripPricePrefix | src/utils/calculations.js:9 | a prefix without price characters, such as a currency symbol, is dropped from a price text |
| Calculations.DecimalTextPriceChars | src/utils/calculations.js:9 | a written decimal holds only price characters |
| Calculations.ParsePriceString | src/utils/calculations.js:6-10 | a number comes back unchanged, NaN included; a string gives a number, never NaN; any other value gives 0 |
| Calculations.ParsePriceIdempotent | src/utils/calculations.js:7 | normalising a normalised price changes nothing |
| Calculations.ParsePriceIgnoresNoise | src/utils/calculations.js:9 | only the price characters of a string decide its value |
| Calculations.ParsePriceOfDecimal | src/utils/calculations.js:9 | a string whose price characters start with a decimal literal, with or without a minus sign and with or without integer digits (`.99`), is read as that literal; the price characters after it (a second point, a minus sign) are ignored |
| Calculations.ParsePriceNegative | src/utils/calculations.js:9 | "-$5.00" is -5 |
| Calculations.ParsePriceStopsAtSecondPoint | src/utils/calculations.js:9 | "1.2.3" is 1.2 |
| Calculations.ParsePriceStopsAtMinus | src/utils/calculations.js:9 | "5-3" is 5 |
| Calculations.ParsePriceWithoutDigits | src/utils/calculations.js:9 | a string without a single digit, such as "abc", is 0 |
| Calculations.ParsePriceDollars | src/utils/calculations.js:3 | "$14.99" is 14.99 |
| Calculations.ParsePriceLeadingPoint | src/utils/calculations.js:9 | "$.99" is 0.99 |
| Calculations.ParsePriceNegativeLeadingPoint | src/utils/calculations.js:9 | "-.5" is -0.5 |
| Calculations.ParsePriceThousands | src/utils/calculations.js:9 | "1,299" is 1299: the comma is dropped, not read as a point |
| Calculations.QuantityOrZero | src/utils/calculations.js:22 | `parseInt(item.quantity) \|\| 0` is always a number |
| Calculations.LineTotal | src/utils/calculations.js:21-23 | a line's `price × quantity` is NaN exactly when its price is NaN |
| Calculations.LineTotals | src/utils/calculations.js:20-24 | one line total per item, in order |
| Calculations.CalculateTotalPrice | src/utils/calculations.js:17-25 | anything but an array totals 0; the total is NaN exactly when some item's price is NaN |
| Calculations.TotalOfNoItems | src/utils/calculations.js:18 | anything but an array, and the empty array, total 0 |
| Calculations.SumNumsAppend | src/utils/calculations.js:20-24 | the `reduce` of a concatenation adds the two reductions |
| Calculations.SumNums | src/utils/calculations.js:20-24 | the sum is a number exactly when every line total is: one NaN line makes the total NaN |
| Calculations.SumNumsNonNegative | src/utils/calculations.js:20-24 | non-negative line totals give a non-negative sum |
| Calculations.TotalOfTwoCarts | src/utils/calculations.js:17-25 | the total of two carts put together is the sum of their totals |
| Calculations.LineWithoutQuantity | src/utils/calculations.js:22 | a line whose quantity `parseInt` cannot read adds nothing, unless its price is NaN |
| Calculations.NonNegativeLineTotal | src/utils/calculations.js:21-23 | a line with a non-negative price and quantity has a non-negative total |
| Calculations.TotalNonNegative | src/utils/calculations.js:17-25 | with non-negative lines the cart total is a non-negative number |
| Calculations.NumMulNonNegative | src/utils/calculations.js:46 | a product of non-negative numbers is a non-negative number |
| Calculations.TaxedAmount | src/utils/calculations.js:46-47 | the amount plus the amount times a non-negative rate is at least the amount, and is the amount times `1 + rate` |
| Calculations.OrderTotalsBounds | src/utils/calculations.js:44-47 | tax = subtotal × rate and total = subtotal + tax; with non-negative lines and rate, 0 <= subtotal <= total and tax >= 0 |
| Calculations.CalculateOrderTotals | src/utils/calculations.js:44-57 | the subtotal is `calculateTotalPrice(items)`; the total is a number exactly when the subtotal and the tax rate are |
| Calculations.FormatPrice | src/utils/calculations.js:33-36 | the formatted price is the currency, then `NaN` or a number ending in a point and two digits |
| Calculations.FormatPriceRoundTrip | src/utils/calculations.js:33-36 | reading a formatted price back gives the price rounded to the cent, for any currency without price characters |
| Calculations.ToFixed2Digits | src/utils/calculations.js:35 | `toFixed(2)` writes only price characters |
| Calculations.FormattedAmountReadBack | src/utils/calculations.js:33-36 | a number formatted with `$` reads back rounded to the cent |
| Calculations.OrderTotalsReadBack | src/utils/calculations.js:53-55 | each formatted field reads back as its amount rounded to the cent |
| Calculations.ReadBackExact | src/utils/calculations.js:33-36 | an amount in whole cents survives formatting and reading back |
| Calculations.FormatCentsExact | src/utils/calculations.js:33-36 | any whole number of cents survives formatting and reading back |
| Cart.CartLine | src/context/CartContext.js:26 | the appended line is exactly `{bookId: book.id, book}` |
| Cart.CartContext.constructor | src/context/CartContext.js:7 | the cart starts empty |
| Cart.CartContext.LoadCartItems | src/context/CartContext.js:13-22 | a stored list replaces the cart; a missing key leaves it |
| Cart.CartContext.AddToCart | src/context/CartContext.js:24-33 | one line appended after the write succeeds; a failed write changes neither state nor storage |
| Cart.CartContext.RemoveFromCart | src/context/CartContext.js:35-44 | every line with that `bookId` removed and the rest kept in order, stored and shown; a failure changes nothing |
| Cart.CartContext.ClearCart | src/context/CartContext.js:46-54 | the key removed and the cart emptied; a failure changes nothing |
| Cart.AddDoesNotMerge | src/context/CartContext.js:26 | adding a book already in the cart gives it one more line: no merging |
| Cart.AddThenRemove | src/context/CartContext.js:24-44 | adding a book whose id is in no line and then removing that id gives back the cart as it was |
| Favorites.FavoritesContext.constructor | src/context/FavoritesContext.js:7 | no favourites at first |
| Favorites.FavoritesContext.LoadFavorites | src/context/FavoritesContext.js:13-22 | a stored list replaces the favourites; a missing key leaves them |
| Favorites.FavoritesContext.AddToFavorites | src/context/FavoritesContext.js:24-33 | the book appended, duplicates included; afterwards `isFavorite(book.id)` holds, unless that id is NaN or an object; a failure changes nothing |
| Favorites.FavoritesContext.RemoveFromFavorites | src/context/FavoritesContext.js:35-44 | every favourite with the id removed, the rest kept in order; afterwards `isFavorite(id)` is false; a failure changes nothing |
| Favorites.FavoritesContext.IsFavorite | src/context/FavoritesContext.js:46-48 | a favourite id is always `===`-comparable: NaN, objects and arrays are never favourites |
| Favorites.AddThenRemove | src/context/FavoritesContext.js:24-44 | adding a book whose id no favourite has and then removing that id gives back the list as it was |
| Books.NewBook | src/context/BookContext.js:67-73 | the caller's fields, with `id`, `userId`, `createdAt` and `status: 'active'` overriding any the caller gave |
| Books.OwnedBy | src/context/BookContext.js:30 | the user's records filtered by `userId === user.id`; with no user it throws as soon as there is a record |
| Books.BookContext.constructor | src/context/BookContext.js:16-20 | empty views, not loading, no error |
| Books.BookContext.FetchMyBooks | src/context/BookContext.js:23-38 | `myBooks` becomes exactly the stored books of the user, in order; a missing key changes nothing; a throw sets the error |
| Books.BookContext.FetchExchangeHistory | src/context/BookContext.js:41-56 | the same filter over the `exchangeHistory` key |
| Books.BookContext.RefreshData | src/context/BookContext.js:141-144 | both views become the user's stored records; a missing or unreadable key leaves its view |
| Books.BookContext.PostBook | src/context/BookContext.js:59-91 | success exactly when the list reads, a user is signed in and the write succeeds; then one new book is appended to storage and to `myBooks`; otherwise neither changes and the error is set |
| Books.BookContext.UpdateBook | src/context/BookContext.js:94-117 | storage and then `myBooks` get the fields merged into every book with the id; a failure changes neither and sets the error |
| Books.BookContext.DeleteBook | src/context/BookContext.js:120-138 | storage and then `myBooks` lose every book with the id, the rest kept in order; a failure changes neither |
| Books.OwnedByExactly | src/context/BookContext.js:30 | the view holds exactly the user's books, in stored order |
| Books.PostedBookIsOwned | src/context/BookContext.js:67-82 | a book posted by a user is in that user's view after a fetch |
| Books.AbsentIdKeepsList | src/context/BookContext.js:100-102 | updating or deleting an id that no book has rewrites the same list |
| Books.BookContext.StoredBooks | src/context/BookContext.js:63-64 | a missing key reads as the empty list, a stored list as itself; it fails exactly when the key holds something else |
| Books.PostThenDelete | src/context/BookContext.js:67-127 | posting a book with an id no stored book has and then deleting that id gives back the stored list |
| Auth.FindCredentials | src/context/AuthContext.js:30-32 | the first registered user with both the email and the password, or none when nobody has both |
| Auth.WithoutPassword | src/context/AuthContext.js:35 | every field but `password`, unchanged |
| Auth.ProfileUpdate | src/context/AuthContext.js:82 | `name` and `profileImage` set, every other session field kept |
| Auth.AuthContext.constructor | src/context/AuthContext.js:8-9 | no user, loading |
| Auth.AuthContext.CheckUser | src/context/AuthContext.js:15-26 | a stored session becomes the user; loading ends |
| Auth.AuthContext.Login | src/context/AuthContext.js:28-44 | a found user minus the password becomes the session and is stored; no match gives 'Invalid credentials' and changes nothing |
| Auth.AuthContext.Signup | src/context/AuthContext.js:46-68 | a registered email gives 'Email already exists' and changes nothing; otherwise the registry grows by the new record, which, once written, is the session without its password |
| Auth.AuthContext.Logout | src/context/AuthContext.js:70-78 | the `user` key removed and the session cleared; a failure changes nothing |
| Auth.AuthContext.UpdateProfile | src/context/AuthContext.js:80-89 | the session and the key get the two new fields, every other field kept; a failure changes nothing |
| Auth.LoginFindsIff | src/context/AuthContext.js:30-34 | login finds a user exactly when some registered user has both the email and the password |
| Auth.SessionHasNoPassword | src/context/AuthContext.js:35-37 | the session user never has a password field |
| Auth.SignupThenLogin | src/context/AuthContext.js:48-60 | after signing up with a free email, logging in with it finds the new record |
| Auth.NewUser | src/context/AuthContext.js:52-58 | the new record has exactly the fields `id`, `name`, `email`, `password` and `profileImage`; it carries the id, name, email and password it was created with, and a `null` photo |
| Auth.FindCredentialsAt | src/context/AuthContext.js:30-32 | `find` returns index `k` when the user there matches and nobody before does |
| BookDetail.BookPrice | src/screens/BookDetailScreen.js:35-37 | a string price is read as `parsePriceString` reads it; another price is kept unless falsy, which gives 0 |
| BookDetail.BookPriceAgrees | src/screens/BookDetailScreen.js:35-37 | the detail screen and `parsePriceString` agree on strings, falsy values and numbers, except that NaN is 0 on the screen |
| BookDetail.BookPriceKeepsOtherValues | src/screens/BookDetailScreen.js:37 | a truthy value that is neither number nor string is shown as it is, where `parsePriceString` gives 0 |
| BookDetail.Decrement | src/screens/BookDetailScreen.js:178 | `Math.max(1, q - 1)` is never below 1, decreases by 1 from 2 up, and is NaN only for NaN |
| BookDetail.Increment | src/screens/BookDetailScreen.js:185 | `q + 1` adds one to a number and appends `1` to text |
| BookDetail.StepperKeepsAtLeastOne | src/screens/BookDetailScreen.js:178-185 | from a numeric quantity of at least 1, minus keeps it at least 1 and plus adds exactly 1 |
| BookDetail.StepUpOnText | src/screens/BookDetailScreen.js:185 | a quantity adopted as text is concatenated by plus: `"2" + 1` is `"21"` |
| BookDetail.MergeIntoCart | src/screens/BookDetailScreen.js:96-101 | the first line with the id gets the quantity added and nothing else changes; with none, `{...book, quantity}` is appended |
| BookDetail.MergeKeepsOneLinePerId | src/screens/BookDetailScreen.js:96-101 | at most one line per id is preserved, and a line is added exactly when the book had none |
| BookDetail.MergeAddsQuantity | src/screens/BookDetailScreen.js:98 | a numeric line quantity grows by exactly the selected numeric quantity |
| BookDetail.StoreLinesAreNeverMerged | src/screens/BookDetailScreen.js:96 | `{bookId, book}` lines written by the cart store have no `id`, so the screen appends rather than merges |
| BookDetail.BookDetailScreen.constructor | src/screens/BookDetailScreen.js:29-31 | not a favourite, quantity 1, not in the cart |
| BookDetail.BookDetailScreen.CheckFavoriteStatus | src/screens/BookDetailScreen.js:44-54 | the flag becomes whether some stored favourite has the book's id |
| BookDetail.BookDetailScreen.CheckCartStatus | src/screens/BookDetailScreen.js:56-70 | in-cart exactly when some stored line has the id, and the quantity becomes the first such line's |
| BookDetail.BookDetailScreen.StepDown | src/screens/BookDetailScreen.js:178 | the quantity becomes `Math.max(1, quantity - 1)` |
| BookDetail.BookDetailScreen.StepUp | src/screens/BookDetailScreen.js:185 | the quantity becomes `quantity + 1` |
| BookDetail.BookDetailScreen.ToggleFavorite | src/screens/BookDetailScreen.js:72-89 | a favourite is filtered out of the stored list, anything else appended; the flag flips only after the write |
| BookDetail.BookDetailScreen.AddToCart | src/screens/BookDetailScreen.js:91-110 | the stored cart becomes the merge of the selected quantity; the flag is set only after the write |
| BookDetail.BookDetailScreen.RemoveFromCart | src/screens/BookDetailScreen.js:112-126 | every line with the id filtered out of a stored cart and the flag cleared; with no stored cart nothing is written |
| CartScreen.NormalizedPrice | src/screens/CartScreen.js:41-43 | the loaded price is always a number |
| CartScreen.NormalizedQuantity | src/screens/CartScreen.js:44 | `parseInt(quantity) \|\| 1` is always a non-zero whole number |
| CartScreen.NormalizeItem | src/screens/CartScreen.js:39-45 | the price and quantity replaced by their normalised forms, every other field kept |
| CartScreen.NormalizeItems | src/screens/CartScreen.js:39 | one normalised line per stored line, in order |
| CartScreen.QuantityDefaultsAgreeIff | src/screens/CartScreen.js:44 | the screen's quantity and `calculateTotalPrice`'s agree exactly when `parseInt` reads a non-zero number; otherwise they are 1 and 0 |
| CartScreen.PriceNormalisationsAgree | src/screens/CartScreen.js:41-43 | the cart screen, the detail screen and `parsePriceString` agree on every string and every number that prints exactly |
| CartScreen.PriceOfNonNumeric | src/screens/CartScreen.js:43 | `null`, `undefined`, booleans and objects give 0 on the cart screen and in `parsePriceString` |
| CartScreen.PriceOfNaN | src/screens/CartScreen.js:43 | NaN is 0 on both screens but stays NaN in `parsePriceString` |
| CartScreen.PriceOfArray | src/screens/CartScreen.js:43 | a one-element array of digits is priced as that number on the cart screen but as 0 by `parsePriceString` |
| CartScreen.NormalizedQuantityReadsBack | src/screens/CartScreen.js:44 | a normalised quantity passes `parseInt(...) \|\| 0` unchanged |
| CartScreen.NormalizedLineAgrees | src/screens/CartScreen.js:104 | on a normalised line, `calculateTotalPrice` charges exactly the shown line total, which is a number |
| CartScreen.ShownLineTotal | src/screens/CartScreen.js:104 | `item.price * item.quantity` is NaN when either field is missing |
| CartScreen.SubtotalOfLoadedCart | src/screens/CartScreen.js:115 | after loading, the footer subtotal is the sum of the shown line totals and is never NaN |
| CartScreen.CartScreen.Totals | src/screens/CartScreen.js:115 | an empty cart totals 0 in every field; the total is a number exactly when the subtotal is |
| CartScreen.CartScreen.constructor | src/screens/CartScreen.js:26 | the cart starts empty |
| CartScreen.CartScreen.LoadCartItems | src/screens/CartScreen.js:33-51 | a stored list replaces the cart, normalised line by line; a missing key leaves it |
| CartScreen.CartScreen.HandleRemoveItem | src/screens/CartScreen.js:53-63 | every line with the id removed, the rest in order, written and only then shown |
| CartScreen.CartScreen.HandleCheckout | src/screens/CartScreen.js:65-72 | refused exactly for an empty cart; otherwise exactly the current lines are passed on |
| Explore.TagStatic | src/screens/ExploreScreen.js:48 | the book with its category and `isPosted: false` |
| Explore.TagPosted | src/screens/ExploreScreen.js:56 | the book with `isPosted: true` |
| Explore.StaticBooks | src/screens/ExploreScreen.js:47-49 | one tagged book per catalogue book |
| Explore.StaticBooksTagged | src/screens/ExploreScreen.js:47-49 | each static book is the catalogue book at that position, tagged with a category that holds it |
| Explore.StaticBooksByCategory | src/screens/ExploreScreen.js:47-49 | book `j` of category `k` sits right after the books of the categories before `k`, tagged with the name of category `k` |
| Explore.GetAllBooks | src/screens/ExploreScreen.js:43-63 | the static books, then every stored posted book tagged as posted; a throw gives the empty list |
| Explore.FilterBooks | src/screens/ExploreScreen.js:67-82 | a subsequence of all books; outside 'All' only books of the category; with an empty query the search never throws and a book is kept exactly when it is one of the books and the category is 'All' or its own, so the first load ('All', empty query) shows every book |
| Explore.SearchKeepsIff | src/screens/ExploreScreen.js:70-82 | with a non-empty query, a book is kept exactly when it is in the category and its title, author or description holds the lower-cased query |
| Explore.ExploreScreen.constructor | src/screens/ExploreScreen.js:27-30 | empty query, category 'All', no books, not loading |
| Explore.ExploreScreen.LoadBooks | src/screens/ExploreScreen.js:65-85 | the filtered list is shown; a search that throws leaves the shown list |
| Explore.ExploreScreen.Show | src/screens/ExploreScreen.js:84 | a computed list becomes the shown list; a search that threw leaves the shown list; query, category and loading are kept |
| Explore.ExploreScreen.SelectCategory | src/screens/ExploreScreen.js:88-92 | choosing a category reloads the list with it |
| Explore.ExploreScreen.Search | src/screens/ExploreScreen.js:88-92 | typing a query reloads the list with it |
| Home.CategoryIcon | src/screens/HomeScreen.js:21-31 | the six named categories get their icons, any other string 'book' |
| Home.BookIconIff | src/screens/HomeScreen.js:21-31 | the icon is 'book' exactly for Fiction and for unknown categories |
| Home.CategoryTiles | src/screens/HomeScreen.js:50-53 | one tile per catalogue key, in key order, with its icon |
| Home.TilesDistinct | src/screens/HomeScreen.js:50-53 | distinct keys give distinct tiles |
| Home.Slice | src/screens/HomeScreen.js:149-151 | `slice(a, b)` is the part from `a` to `b`, cut at the end of the list |
| Home.SectionsSplitFirstNine | src/screens/HomeScreen.js:149-151 | the three sections are consecutive, disjoint pieces of at most three, together the first nine books |
| Home.HomeScreen.FeaturedBooks | src/screens/HomeScreen.js:149 | the first three books, or all of them when there are fewer |
| Home.HomeScreen.NewArrivals | src/screens/HomeScreen.js:150 | at most three books: none with three books or fewer, the fourth to sixth when there are six or more |
| Home.HomeScreen.BestSellers | src/screens/HomeScreen.js:151 | at most three books: none with six books or fewer, the seventh to ninth when there are nine or more |
| Home.DescriptionNotSearched | src/screens/HomeScreen.js:116-119 | a book found only by its description is found by the explore screen and not on Home |
| Home.HomeScreen.constructor | src/screens/HomeScreen.js:106-110 | empty query and the whole flattened catalogue |
| Home.HomeScreen.SetSearchQuery | src/screens/HomeScreen.js:112-124 | a blank query shows everything; otherwise the untrimmed lower-cased query filters titles and authors |
| BookManagement.NextStatus | src/screens/BookManagementScreen.js:46 | 'sold' exactly for an active book, 'active' for every other status |
| BookManagement.StatusPatch | src/screens/BookManagementScreen.js:48 | the update carries the new status and no other field |
| BookManagement.ToggleTwice | src/screens/BookManagementScreen.js:46 | toggling twice restores 'active' or 'sold' |
| BookManagement.StatusChangeOnlyStatus | src/screens/BookManagementScreen.js:48 | a status change keeps every other field of every book |
| BookManagement.BookManagementScreen.constructor | src/screens/BookManagementScreen.js:10 | not loading |
| BookManagement.BookManagementScreen.HandleStatusChange | src/screens/BookManagementScreen.js:45-53 | `updateBook(book.id, {status})` with the toggled status; an alert exactly on failure; not loading afterwards |
| BookManagement.BookManagementScreen.HandleDelete | src/screens/BookManagementScreen.js:20-43 | nothing without confirmation; otherwise `deleteBook(bookId)`, an alert exactly on failure, not loading afterwards |
| FavoritesScreen.FavoritesScreen.constructor | src/screens/FavoritesScreen.js:27 | no favourites at first |
| FavoritesScreen.FavoritesScreen.LoadFavorites | src/screens/FavoritesScreen.js:34-43 | a stored list is adopted; a missing key leaves the list |
| FavoritesScreen.FavoritesScreen.HandleRemoveFavorite | src/screens/FavoritesScreen.js:45-55 | the screen's list without the id is written and then shown, and the id is gone; a failed write changes nothing and alerts |
| FavoritesScreen.RemovalDropsUnloadedFavorite | src/screens/FavoritesScreen.js:47-48 | the screen writes its own copy, so a favourite added since loading is dropped from storage |
| FavoritesScreen.RemovalKeepsOthers | src/screens/FavoritesScreen.js:47 | every other favourite is kept, each as often as before |
| PostBook.Validate | src/screens/PostBookScreen.js:56 | the form passes exactly when every field is filled; otherwise the first unfilled field decides |
| PostBook.FieldCheck | src/screens/PostBookScreen.js:56 | a field throws exactly when it is no string and is blank exactly when it is all white space |
| PostBook.BlankStopsBeforeThrow | src/screens/PostBookScreen.js:56 | `\|\|` stops at the first blank field, so a later non-string field does not throw |
| PostBook.BookData | src/screens/PostBookScreen.js:61-68 | the six fields, untrimmed, with the price read by `parseFloat` |
| PostBook.PostBookScreen.Data | src/screens/PostBookScreen.js:61-68 | on a filled form: exactly the six fields title, author, price, description, image and category, with the price text read by `parseFloat` |
| PostBook.WordPriceIsNaN | src/screens/PostBookScreen.js:64 | a price that is text but no number passes the checks and is kept as NaN; JSON writes that NaN as null, which is not modelled |
| PostBook.PrefilledPriceRoundTrip | src/screens/PostBookScreen.js:35-64 | saving an edited book untouched keeps its price whenever the price prints exactly |
| PostBook.PostBookScreen.constructor | src/screens/PostBookScreen.js:14-20 | empty fields, category 'Fiction', no image, no error |
| PostBook.PostBookScreen.Prefill | src/screens/PostBookScreen.js:31-40 | when editing, the form takes the book's fields and its price as text; a missing price throws after the title and author are set |
| PostBook.PostBookScreen.HandleSubmit | src/screens/PostBookScreen.js:55-82 | a blank field sets 'Please fill in all fields' and calls nothing; otherwise `updateBook` when editing and `postBook` otherwise: on success the `postedBooks` key gets the merged or appended list and the screen goes back; on failure the store is unchanged and the error shown; the exchange history is never touched |
| PostBook.PostBookScreen.SubmitUpdate | src/screens/PostBookScreen.js:72-81 | on success the `postedBooks` key and `myBooks` get the form merged into every book with the id, and the screen goes back; on failure storage and `myBooks` are unchanged and 'Failed to update book' is shown; the exchange history is kept and loading ends |
| PostBook.PostBookScreen.SubmitPost | src/screens/PostBookScreen.js:74-81 | on success the `postedBooks` key gets the stored list plus one new book of the user, `myBooks` grows by it and the screen goes back; on failure storage and `myBooks` are unchanged and the store's error is shown; the exchange history is kept and loading ends |
| SignupScreen.SignupCheck | src/screens/SignupScreen.js:25-33 | 'fill in' exactly when a field is empty, 'do not match' exactly when all are filled and the passwords differ |
| SignupScreen.SignupScreen.constructor | src/screens/SignupScreen.js:9-12 | empty fields |
| SignupScreen.SignupScreen.HandleSignup | src/screens/SignupScreen.js:24-40 | an alert exactly when a check fails, with nothing changed; otherwise `signup(name, email, password)`: with a free email the registry grows and, once the `user` key is written, the session is the new record without its password; a failed write leaves the session and the store as they were; `loading` is unchanged |
| SignupScreen.PassedSignupCanLogIn | src/screens/SignupScreen.js:30-36 | a sign-up the screen lets through with a free email can be logged into with the password typed twice |
| VerifyAccount.SubmitOutcome | src/screens/VerifyAccountScreen.js:52-73 | 'fill in' exactly when a field is falsy; 'upload' exactly when the fields are filled and there is no document; submitted otherwise |
| VerifyAccount.MissingField | src/screens/VerifyAccountScreen.js:53-61 | when no field is reported missing, all four fields are present in the form |
| VerifyAccount.FilledFormSubmits | src/screens/VerifyAccountScreen.js:26-73 | typing all four fields and uploading leads to submission |
| VerifyAccount.FieldsCheckedBeforeDocument | src/screens/VerifyAccountScreen.js:53-61 | an empty field is reported whether or not there is a document |
| VerifyAccount.VerifyAccountScreen.constructor | src/screens/VerifyAccountScreen.js:17-24 | status 'pending', no document, four empty fields |
| VerifyAccount.VerifyAccountScreen.HandleInputChange | src/screens/VerifyAccountScreen.js:26-31 | that one field set, every other kept |
| VerifyAccount.VerifyAccountScreen.HandleDocumentUpload | src/screens/VerifyAccountScreen.js:33-50 | Upload records `{name: 'sample_document.jpg'}`; Cancel changes nothing |
| Contact.Complete | src/screens/ContactScreen.js:14 | the form is complete exactly when no field is empty; white space counts as filled |
| Contact.ContactScreen.constructor | src/screens/ContactScreen.js:7-11 | empty fields, no modal, no error |
| Contact.ContactScreen.HandleSubmit | src/screens/ContactScreen.js:13-19 | an empty field sets the error; otherwise the modal opens and an earlier error stays |
| ExchangeHistory.StatusColor | src/screens/ExchangeHistoryScreen.js:32-43 | the three known statuses get their colours, anything else `#666` |
| ExchangeHistory.StatusIcon | src/screens/ExchangeHistoryScreen.js:67-68 | check mark exactly for completed, clock exactly for pending, cross otherwise |
| ExchangeHistory.StatusLabel | src/screens/ExchangeHistoryScreen.js:73 | same length, first character upper-cased, the rest unchanged |
| ExchangeHistory.LabelOnlyChangesCase | src/screens/ExchangeHistoryScreen.js:73 | the label differs from the status only in case, and labelling twice is labelling once |
| ExchangeHistory.UnknownStatusLooksCancelled | src/screens/ExchangeHistoryScreen.js:32-68 | an unknown status gets the cancelled icon but not the cancelled colour |
| ExchangeHistory.TagBackground | src/screens/ExchangeHistoryScreen.js:65 | the status colour followed by two more characters |
| ExchangeHistory.KnownStatusBackground | src/screens/ExchangeHistoryScreen.js:65 | for the three known statuses the background is a valid `#rrggbbaa` colour |
| ExchangeHistory.UnknownStatusBackground | src/screens/ExchangeHistoryScreen.js:41-65 | any other status gets `#66620`, which is no colour |
| ExchangeHistory.LongForm | src/screens/ExchangeHistoryScreen.js:41 | `#rgb` written out as `#rrggbb`, a long colour kept |
| ExchangeHistory.TintedBackground | src/screens/ExchangeHistoryScreen.js:65 | the intended background is always an eight-digit colour |
| ExchangeHistory.TintedAgreesWhereValid | src/screens/ExchangeHistoryScreen.js:65 | the corrected background equals the written one wherever that is a colour, and is `#66666620` elsewhere |
| OrderSummary.FormatItemPrice | src/screens/OrderSummaryScreen.js:50-53 | `$` and the line amount `price × (quantity \|\| 1)` with two fraction digits |
| OrderSummary.MissingQuantityCountsOne | src/screens/OrderSummaryScreen.js:52 | a missing, zero or empty quantity counts as one copy |
| OrderSummary.ItemAmount | src/screens/OrderSummaryScreen.js:52 | with a falsy quantity the amount is a number exactly when the price converts to one |
| OrderSummary.SummaryLineAgrees | src/screens/OrderSummaryScreen.js:52 | on a line the cart screen normalised, the summary amount is the cart's line total and what `calculateTotalPrice` charges |
| OrderSummary.SummarySubtotal | src/screens/OrderSummaryScreen.js:32 | the summary subtotal is the sum of the listed line amounts, and a number |
| OrderSummary.OrderSummaryScreen.Totals | src/screens/OrderSummaryScreen.js:32 | an empty order totals 0 in every field; the total is a number exactly when the subtotal is |
| OrderSummary.AmountsAreShownTotals | src/screens/OrderSummaryScreen.js:52 | the summary's line amounts are the cart screen's line totals |
| OrderSummary.OrderSummaryScreen.constructor | src/screens/OrderSummaryScreen.js:28-29 | the lines passed on, not processing |
| OrderSummary.OrderSummaryScreen.HandlePlaceOrder | src/screens/OrderSummaryScreen.js:55-81 | ignored while processing; otherwise `[]` written under `cart`, placed exactly when the write succeeds, not processing afterwards |
| Profile.OptionalProp | src/screens/ProfileScreen.js:15 | `user?.f` is `undefined` without a user |
| Profile.ProfileKey | src/screens/ProfileScreen.js:30 | `userProfile_` and the user's id; none without a user |
| Profile.ContactRecord | src/screens/ProfileScreen.js:44-47 | exactly `{phone, address}` |
| Profile.LoadedField | src/screens/ProfileScreen.js:32-34 | a stored field, or `''` for a missing or falsy one |
| Profile.LoadAfterSave | src/screens/ProfileScreen.js:30-47 | loading what was saved gives back the phone number and the address |
| Profile.CancelAfterSaveShowsSaved | src/screens/ProfileScreen.js:90-174 | after a successful save, Cancel shows the new name and photo, a falsy photo as `null` |
| Profile.ProfileScreen.constructor | src/screens/ProfileScreen.js:14-22 | name and photo from the session user with defaults `''` and `null`; nothing being edited |
| Profile.ProfileScreen.LoadUserProfile | src/screens/ProfileScreen.js:28-39 | a stored record sets the phone and address, `''` for missing ones; a missing key or user changes nothing |
| Profile.ProfileScreen.SaveUserProfile | src/screens/ProfileScreen.js:41-57 | exactly `{phone, address}` written under the user's key and both editors closed; a failure changes nothing; not loading afterwards |
| Profile.ProfileScreen.HandleSave | src/screens/ProfileScreen.js:84-97 | a blank name sets 'Name cannot be empty' and saves nothing; success stores and shows the updated session user, leaves edit mode and clears the error; failure shows the store's error |
| Profile.ProfileScreen.Cancel | src/screens/ProfileScreen.js:169-174 | edit mode ends, the name and photo return to the session user's, the error is cleared |

## Left out

- Alerts, navigation, `ImagePicker`, the `setTimeout` delay, `formatDate` and `console.error` are foreign or locale-dependent calls. Handlers report an alert as a result value instead.
- Rendering, styles, image maps and `getBookImage`: presentation only.
- Interleaving of concurrent async operations: each operation is atomic.
  - Intermediate `loading` and `isProcessing` values are not observable. Only their final values are stated, except that `HandlePlaceOrder` checks the flag on entry.
- `getItem` failures are not modelled. JSON serialisation is the identity on the stored value.
- A stored value of the wrong shape takes the throw path in every reader:
  - a list where a record is expected;
  - a record where a list is expected;
  - text that does not parse.
- Cart.CartContext.LoadCartItems, Favorites.FavoritesContext.LoadFavorites and FavoritesScreen.FavoritesScreen.LoadFavorites adopt a stored list only. The source would also adopt a parsed record or scalar.
- Auth.AuthContext.CheckUser adopts a stored record only. The source would also adopt any parsed value.
- Generated ids and timestamps are parameters. The round-trip lemmas `Books.PostThenDelete`, `Cart.AddThenRemove` and `Favorites.AddThenRemove` take the freshness of the id as a precondition; the operations themselves do not assume it.
- Numbers are exact reals or NaN. Not modelled:
  - Infinity;
  - negative zero;
  - IEEE-754 rounding of products and sums;
  - hexadecimal literals in `parseInt` and `Number`, and the binary and octal prefixes `0b` and `0o` that `Number` accepts (`Number("0b11")` is 3, where JsNumber.StringToNumber gives NaN).
- JsNumber.ParseFloat and JsNumber.StringToNumber read text beginning with `Infinity` as NaN, where JavaScript gives Infinity: a price typed as `Infinity` on the post form is saved as NaN here. `JsNumber.ParseFloatOfWord` states this NaN.
- JsNumber.NumberToStringRoundTrip: `String(n)` writes at most 20 fraction digits and never uses exponent form. Values of 1e21 or more, non-zero values of magnitude below 1e-6, and values needing more digits are outside this contract.
- JsNumber.NumberToString: JavaScript writes a non-zero number of magnitude below 1e-6 in exponent form (`String(5e-7)` is `"5e-7"`, so `parseInt` of it is 5); here it is written in plain decimal notation, so `parseInt` of it is 0. Calculations.QuantityOrZero, Calculations.LineTotal and CartScreen.NormalizedQuantity read quantities through `parseInt`, so for such a quantity they give 0 (and 1 for the cart screen) where JavaScript gives the leading digit of the exponent form.
- JsNumber.ToFixed2RoundTrip: `toFixed(2)` rounds the exact value half away from zero. It does not use the binary double's rounding, and never uses exponent form.
- Calculations.CalculateTotalPrice: a null or undefined element throws in the source (reading `item.price`); the model requires there is none, and every caller passes objects. The same precondition is on Calculations.CalculateOrderTotals and Calculations.LineTotal.
- Js.ToLower: case mapping covers ASCII letters only; every other character, accented and non-Latin letters included, is left unchanged, where JavaScript maps those letters too. Explore.SearchKeepsIff, Home.HomeScreen.SetSearchQuery and the other searches inherit this.
- Js.ToUpper: upper-cases ASCII letters only; every other character is left unchanged, where JavaScript maps non-ASCII letters too (and may lengthen the text, as with `ß`).
- Js.StrictEq: values carry no reference identity, so an object or an array is never `===` to anything here, where in JavaScript it is `===` to itself. Every caller compares string or number ids.
- Js.StrictEqIsEquality: states `===` for values without reference identity; objects and arrays, which JavaScript compares by reference, are outside it.
- Favorites.FavoritesContext.IsFavorite: never finds an object or array id, where JavaScript would find the very same object; ids are strings or numbers throughout.
- BookDetail.BookDetailScreen.StepUp has no contract beyond the new quantity being `quantity + 1`. Increment is `+` on a value adopted from storage, which may be text, so its behaviour is stated by lemmas instead.
- ExchangeHistory.StatusLabel takes the status as text. A status that is not a string would throw on `charAt`; this is not modelled. Its upper-casing of the first character is ASCII-only, as for Js.ToUpper: JavaScript turns a leading `ß` into `SS` and upper-cases a leading `é`, so the "same length" and "first character upper-cased" of its row hold for ASCII letters only.
- A throw inside a React effect or an async handler is modelled as "nothing further happens". Unhandled promise rejections are not modelled.
- Placing an order clears the `cart` key but not the in-memory cart of the `CartContext` provider, as in the source.
- The bundled catalogue (`books.json`) and the user registry (`users.json`) are parameters. Their contents are not part of this model.
- The exchange-history sample transactions are static data and are not modelled.
- `handleEdit`, `handleLogout`, `handleCategoryPress` and the other navigation-only handlers are not modelled.

## Findings

| source | as written | input that shows it | evidently intended | confidence | as-written member | corrected member |
|---|---|---|---|---|---|---|
| src/screens/ExchangeHistoryScreen.js:65 | the tag background is the status colour with `20` appended | status `sold` (any unknown status): the colour `#666` gives `#66620`, six characters, which is no hexadecimal colour form | the status colour at alpha `0x20`, written `#66666620` for `#666` | medium; not executed | ExchangeHistory.UnknownStatusBackground | ExchangeHistory.TintedAgreesWhereValid |

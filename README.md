# Reading-list book store, modelled in Dafny

This project models the core of a small Flask service that keeps a personal
reading list of books (`PythonProject/app.py`). Every handler loads the whole
collection, changes it in memory and writes it back. Here the file is replaced
by a sequence held in a `BookStore` object, and each handler becomes a method
of that object:

- `FindById` and `IndexOf` are the linear scans of `find_book_by_id` and of the
  `enumerate` loops with `break` in `update_book` and `delete_book`.
- `NewId` is `generate_new_id`: the largest id plus one, or 1 when empty.
- `AddBook` is `add_book`. It checks the body, then the four required fields
  in the order title, author, rate, status, then the rate. It then strips the
  text fields and appends one record.
- `UpdateBook` is `update_book`. It looks the id up first, then checks the
  body. It then applies the supplied fields to a working copy (`ApplyChanges`)
  and writes the copy back only when every step succeeded.
- `DeleteBook` is `delete_book`: `list.pop` at the first matching position.
- `GetBook` is `get_book_by_id`.

A handler's answer is a `Response`: the record it returns, or an `Error` that
names the refusal (no JSON, the missing field, a bad or out-of-range rate, an
unknown id, or a caught exception). `HttpStatus` maps it to 200/201/400/404/500.
Supporting modules model Python's `str.strip()` (`Text`) and `float()` on
decimal text (`Numeric`).

Two behaviours of the code worth knowing:

- An update whose body is an empty object is refused with 400, because
  `if not data` treats `{}` like a missing body. Only a non-empty body that
  names none of the four fields just refreshes `updated_at` (`MergeNoFields`).
- A `title`, `author` or `status` that is present but is not a string (or a
  `rate` that is `null`, a list or an object) raises inside the handler. The handler's
  catch-all turns that into 500, not 400. A JSON `true` is a valid rate,
  because `float(True) == 1.0`.

## Model

| member | source | states |
|---|---|---|
| `Text.Strip` | PythonProject/app.py:102-105 | the stripped text has no whitespace at either end; it is empty exactly when the input is all whitespace; the input is the result with only whitespace before and after it |
| `Text.StripTrimmed` | PythonProject/app.py:102-105 | text with no whitespace at either end is left unchanged by strip |
| `Text.StripIdempotent` | PythonProject/app.py:102-105 | stripping an already stripped value changes nothing |
| `Text.StripUnique` | PythonProject/app.py:102-105 | any trimmed text surrounded by whitespace strips to exactly that text (strip is fully characterised) |
| `Text.StripPadding` | PythonProject/app.py:102-105 | adding whitespace around a value does not change what is stored |
| `Numeric.ParseDecimal` | PythonProject/app.py:89 | text that `float()` accepts contains at least one digit; text with no digit (empty, only whitespace, a bare sign or point) is refused, and so is text holding an ASCII information separator (U+001C to U+001F), which `float()` does not trim although `str.strip()` does |
| `Numeric.ParseFraction` | PythonProject/app.py:89 | digits, a decimal point and digits (either side may be empty, not both) read as the whole part plus the fraction scaled by ten to the number of fraction digits |
| `Numeric.ParseNatString` | PythonProject/app.py:89 | `float()` of the decimal text of a whole number gives that number back |
| `Numeric.ParsePadding` | PythonProject/app.py:149 | `float()` ignores whitespace around the number: the `str.strip()` whitespace other than the four information separators |
| `Requests.Error.HttpStatus` | PythonProject/app.py:131-175 | an unknown id answers 404, a caught exception 500, and exactly the four request refusals (no JSON, missing field, non-numeric rate, out-of-range rate) answer 400 |
| `Requests.HasData` | PythonProject/app.py:77 | a body passes `if not data` exactly when it is present and has at least one key |
| `Requests.Float` | PythonProject/app.py:89 | `float()` raises `TypeError` exactly for null, a list or an object, and `ValueError` exactly for a string that does not parse; `true`/`false` give 1.0/0.0, a number gives itself, and a string that parses gives the parsed value |
| `Store.Response.HttpStatus` | PythonProject/app.py:111-170 | 201 exactly for a created record, 200 exactly for a found, updated or deleted one; a refusal answers its error's own status (400, 404 or 500) |
| `Books.FirstIndex` | PythonProject/app.py:24-29 | the position found carries the id and no earlier record does; nothing is found exactly when no record carries the id |
| `Books.MaxId` | PythonProject/app.py:35 | the result is an id of the collection and no id exceeds it |
| `Books.NewId` | PythonProject/app.py:31-35 | 1 on an empty collection; otherwise the largest id plus one, so it exceeds every id present |
| `Books.NewIdAbsent` | PythonProject/app.py:31-35 | a freshly allocated id is not found in the collection |
| `Books.AppendFreshUnique` | PythonProject/app.py:100-110 | appending a record with the fresh id keeps ids unique |
| `Books.FindAppended` | PythonProject/app.py:100-110 | after appending, looking up the new id finds the new record at the end |
| `Books.RemoveAt` | PythonProject/app.py:193 | `pop(k)` shortens by one, keeps the records before `k`, shifts the later ones down by one, and removes exactly one copy of the popped record |
| `Books.RemoveAtOrder` | PythonProject/app.py:193 | the records at positions `i < j` after removal are the original records at `i` or `i + 1` and `j` or `j + 1` (shifted past the popped position), which are distinct from it and still in the same order |
| `Books.RemoveAtUnique` | PythonProject/app.py:193 | removal keeps ids unique |
| `Books.RemoveFound` | PythonProject/app.py:180-194 | with unique ids, once the first record with an id is removed, the id is no longer found |
| `Books.ReplaceUnique` | PythonProject/app.py:164 | replacing a record by one with the same id keeps ids unique |
| `Requests.CheckRate` | PythonProject/app.py:88-99 | a rate is accepted exactly when it converts to a number in [1, 5], bounds included; a non-numeric string gives the "valid number" refusal; a number outside [1, 5] gives the "between 1 and 5" refusal; an unconvertible type gives a fault; no other error can arise |
| `Requests.StripField` | PythonProject/app.py:102 | only a string value can be stripped; the result is `Strip` of it (so trimmed), and any other value is a fault (500) |
| `Requests.FirstMissing` | PythonProject/app.py:82-87 | nothing is missing exactly when every field is present; otherwise the named field is absent and every field before it is present |
| `Requests.FirstMissingRequired` | PythonProject/app.py:76-87 | the scan reports title, author, rate, status in that order of priority |
| `Requests.DraftOf` | PythonProject/app.py:88-107 | with all four fields present, the conversions succeed exactly when the rate passes the check and the three text fields are strings; the draft holds the stripped text and the converted rate; a failure is the rate check's error when the rate fails, and a fault otherwise |
| `Requests.ValidateCreate` | PythonProject/app.py:75-107 | a missing or empty body is refused first; an accepted draft has a rate in [1, 5] and trimmed text fields; create never reports not-found |
| `Requests.CreateAccepted` | PythonProject/app.py:76-107 | a create request is accepted exactly when all four fields are present and usable, and the draft holds the stripped title, author and status and the converted rate |
| `Requests.CreateMissing` | PythonProject/app.py:82-87 | a missing-field refusal names an absent field, and all earlier required fields are present |
| `Requests.MissingRefused` | PythonProject/app.py:82-87 | a non-empty body whose first absent required field is `f` is refused with 400 naming `f` |
| `Requests.BadRateRefused` | PythonProject/app.py:88-99 | a body with all four fields whose rate fails the check is refused with the check's own verdict |
| `Requests.CreateRateRefused` | PythonProject/app.py:88-99 | a rate refusal happens only once all four fields are present, and it is the rate check's own verdict |
| `Requests.Merge` | PythonProject/app.py:142-163 | the merge succeeds exactly when every supplied text field is a string and a supplied rate passes the check; it keeps id and creation time, sets the update time, replaces each supplied field (text stripped) and keeps each absent one; when the supplied title and author are strings, a supplied rate that fails the check gives that check's error; it is a fault exactly when a supplied title or author is not a string, the rate conversion raises `TypeError`, or the status is not a string while the rate (if any) passed |
| `Requests.MergeNoFields` | PythonProject/app.py:142-163 | a body naming none of the four fields changes only the update time |
| `Store.ApplyChanges` | PythonProject/app.py:142-163 | the step-by-step edits of the working copy give exactly the merge |
| `Store.BookStore.FindById` | PythonProject/app.py:24-29 | returns the first record with the id, and nothing exactly when no record has it |
| `Store.BookStore.IndexOf` | PythonProject/app.py:126-130 | the scan finds exactly the first matching position |
| `Store.BookStore.GetBook` | PythonProject/app.py:52-65 | found exactly when the id is present, returning the first such record; an unknown id gives the not-found refusal with 404 |
| `Store.BookStore.AddBook` | PythonProject/app.py:72-115 | every refusal leaves the collection unchanged; an accepted request appends exactly one record carrying the fresh id, the draft's fields, the creation time and no update time; the new id exceeds all earlier ids; unique ids stay unique |
| `Store.BookStore.UpdateBook` | PythonProject/app.py:122-170 | unknown id gives 404 before the body is checked; a missing body gives 400; a failed merge (even after title or author were applied to the copy) leaves the collection unchanged; success replaces only the first matching record with the merge; length and unique ids are kept |
| `Store.BookStore.DeleteBook` | PythonProject/app.py:177-199 | unknown id gives 404 with the collection unchanged; otherwise returns the first matching record and removes exactly it, the rest in order; with unique ids the id is then gone |

## Left out

- File persistence (`load_books`, `save_books`): JSON encoding, creating a missing file, and reading a corrupt file as empty. The collection is a sequence held by `BookStore`; its constructor takes the loaded records.
- Flask routing, `request.get_json`, `jsonify` and the response envelope. A response is a record or an error, and message text is not modelled beyond the missing field's name.
- Request bodies that are JSON but not an object (a list, a string, a number). `Body` is an optional object.
- Object keys are a `Key` datatype: the four book fields, or any other name (`Other`). `Other` is meant for names other than the four field names; the type does not enforce that, so `Other("title")` is a distinct key from `Title`.
- Requests.Float: Python's `float()` of a JSON integer too large for a double raises `OverflowError`, which the handlers do not catch specifically, so the answer is 500. The model's numbers are exact reals, so such a rate is simply out of range and gets 400.
- Timestamps from `datetime.now().isoformat()`: the update and create methods take them as an opaque `now` string.
- `float()` on strings: exponents, signs, a decimal point and surrounding whitespace are modelled. Underscores, non-ASCII digits, `inf` and `nan` are not, and the model refuses them with `RateNotNumber`. Numbers are exact reals, not IEEE doubles, so a `nan` rate is not modelled. In Python `nan` slips past both bound checks.
- `str.strip()` uses a fixed set of whitespace characters: the ASCII separators, NEL, NBSP and the Unicode space separators. `float()` trims the same set less the four information separators U+001C to U+001F.
- `get_all_books` returns the `books` field unchanged, so it has no method of its own.
- `health_check`, the 404/500 fallback handlers, and the seed data and server start under `__main__`.
- Concurrent requests racing on the file. The source has no coordination to model.

# tg_contacts converter, modelled in Dafny

`cli.py` turns a Telegram contacts export into a file that Android can import.
It walks `contacts.list`. For each contact it reads the first name, the last
name and the phone number, and normalizes the phone (`normalize_phone`).
With `--dedupe phone` it drops every contact whose normalized phone was
already seen. It writes each remaining contact as a CSV row or as a vCard,
and it counts what it did.

The model has three modules:

- `Text` (text.dfy): Python's `str.startswith` and the argument-less
  `str.strip`. `IsSpace` is the set of characters `str.isspace` accepts.
- `Phone` (phone.dfy): `normalize_phone` as the pure function
  `Normalize`. The country table `COUNTRY_CODES` (`"KE" -> "254"`) is the
  constant `CountryCodes`, and `Normalize` takes the table as a parameter.
  The lemmas cover:
  - the two flags
  - the rule order
  - idempotence
  - worked Kenyan numbers
- `Contacts` (contacts.dfy): the loop of `main` as the method `Process`,
  and `Convert`, which runs that loop with the phone normalizer.
  - The loop keeps the seen phones, the counters, the CSV rows (header
    first) and the vCard lines. It is proved against `RunUpTo`, a fold of
    the one-contact step `Visit`.
  - That fold is tied to declarative definitions. `Kept` is the contacts
    that get written, `Dropped` the duplicates, `Count00`/`CountCountry`
    the rule counters, and `CsvRows`/`VcfLines` the output.
  - Lemmas about those definitions state what deduplication and the two
    output formats promise.

Two points where the code behaves differently from what one might expect.
The model follows the code:

- **The two flags.** One might expect a phone to have both its "00" prefix
  rewritten and a country rule applied. In the code the rewrite leaves a
  leading "+", and no country rule fires on such a string. So the two
  flags are never both set (`Phone.NormalizeFlags`).
- **The FN line.** The vCard FN line is `"FN:first last"` with the whole
  line stripped. Only trailing whitespace of the name goes. With an empty
  first name the line keeps a blank after the colon (`Contacts.CardFullName`).

## Model

| member | source | states |
|---|---|---|
| Text.TrimLeftSpec | cli.py:40 | left-stripping removes exactly the longest all-whitespace prefix; the result is a suffix of the input that does not begin with whitespace |
| Text.TrimRightSpec | cli.py:154 | right-stripping removes exactly the longest all-whitespace suffix; the result is a prefix of the input that does not end with whitespace |
| Text.StripSpec | cli.py:40 | `strip` keeps a slice that neither begins nor ends with whitespace, and everything before and after that slice is whitespace |
| Text.StripUnchanged | cli.py:40 | a string with no whitespace at either end is its own strip |
| Text.StripIdempotent | cli.py:40 | stripping twice gives the same string as stripping once |
| Text.TrimRightAfter | cli.py:154 | right-trimming `p + x`, where `p` does not end in whitespace, trims only `x` |
| Text.StripAfterTag | cli.py:154 | stripping a line that opens with a non-blank tag keeps the tag and only right-trims what follows it |
| Phone.NormalizeFlags | cli.py:36-63 | an empty phone is returned unchanged with no flag; the "00" flag is set exactly when the stripped phone starts with "00", and the result is then "+" followed by the rest; the flags are never both set; the country flag needs a known country and leaves "+cc" in front; with no flag the result is the stripped phone |
| Phone.CountryRules | cli.py:48-61 | with a known country the country flag is set exactly when one of the three rules matches; the first matching rule decides the result (leading "0" and length at least 9, then the bare calling code without "+", then leading "7" and length at least 9), and with none matching the prepared phone is returned |
| Phone.NoCountry | cli.py:40-49 | with no country, or one missing from the table, only the strip and the "00" rewrite apply |
| Phone.PlusUnchanged | cli.py:36-63 | a phone that already begins with "+" and has no whitespace at either end is returned unchanged with no flag |
| Phone.NormalizedEnd | cli.py:44-61 | after any rewrite the result begins with "+" and does not end in whitespace |
| Phone.PlainUnchanged | cli.py:36-63 | when no rule fired, normalizing the stripped phone again fires nothing and returns it unchanged |
| Phone.NormalizeIdempotent | cli.py:36-63 | normalizing a normalized phone with the same country returns it unchanged and sets no flag |
| Phone.KenyaLeadingZero | cli.py:32-63 | with KE, "0712345678" becomes "+254712345678" by the leading-zero rule |
| Phone.KenyaBareCallingCode | cli.py:32-63 | with KE, "254712345678" becomes "+254712345678" by the calling-code rule |
| Phone.KenyaBareSubscriber | cli.py:32-63 | with KE, "712345678" becomes "+254712345678" by the leading-seven rule |
| Phone.KenyaInternationalPrefix | cli.py:32-63 | with KE, "0041791234567" becomes "+41791234567" by the "00" rewrite alone, and no country rule fires |
| Contacts.Convert | cli.py:104-158 | over the normalized contacts: the counters are the total, the written contacts, the duplicates and the two rule counts; the CSV output is the header and one row per written contact; the vCard output is one card per written contact; written plus duplicates equals the total; without deduplication nothing is dropped |
| Contacts.Process | cli.py:104-158 | the loop, with the normalizer given as a function: the same outputs and counters as `Convert`, proved through loop invariants against the one-contact fold `RunUpTo` |
| Contacts.RunSeen | cli.py:135-139 | the loop's set of seen phones is the set of phones of the contacts visited so far when deduplicating, and empty otherwise |
| Contacts.RunCounts | cli.py:105-158 | the loop's counters after `n` contacts are the number written, the number dropped and how often each rule fired |
| Contacts.RunOutput | cli.py:111-156 | the loop's output after `n` contacts is the header plus a row per written contact, or a card per written contact |
| Contacts.VisitOutput | cli.py:135-156 | one loop step appends the contact's row or card exactly when the contact is written |
| Contacts.EmitOne | cli.py:141-156 | one more written contact appends exactly its row to the CSV output and its card to the vCard output |
| Contacts.PhoneSetMembers | cli.py:135-139 | a phone has been seen exactly when one of the contacts visited so far carries it |
| Contacts.KeptAndDropped | cli.py:135-158 | every contact is either written or dropped as a duplicate, never both |
| Contacts.KeepAll | cli.py:135-139 | without deduplication every contact is written, in input order, and none is dropped |
| Contacts.CountsBounded | cli.py:131-137 | the duplicate count and both rule counts never exceed the number of contacts |
| Contacts.CountsIncludeDropped | cli.py:131-138 | after any number of contacts the two rule counters are the same with deduplication as without it: a contact dropped as a duplicate is still counted |
| Contacts.SamePhonesOnPrefix | cli.py:135-139 | the phones seen after `n` contacts depend only on those `n` contacts |
| Contacts.KeptCoversPhones | cli.py:135-139 | with deduplication the written contacts still carry every phone of the input |
| Contacts.KeptPhonesDistinct | cli.py:135-139 | with deduplication no two written contacts share a phone |
| Contacts.KeptIndicesMatch | cli.py:126-139 | the written contacts are input contacts at strictly increasing positions, so input order is kept |
| Contacts.KeptIndicesExactly | cli.py:135-139 | a contact is written exactly when deduplication is off or no earlier contact has its phone, so the first occurrence of a phone is the one kept |
| Contacts.HeaderColumns | cli.py:115-121 | the header has a "First Name" column unless the mode is last, a "Last Name" column unless the mode is first, first before last, and always ends with "Phone" |
| Contacts.RowUnderHeader | cli.py:115-148 | every data row is as long as the header and holds, under each column title, the field that title names |
| Contacts.CsvRowsShape | cli.py:111-148 | the CSV output has one more row than there are written contacts: the header first, then row `j + 1` for contact `j` |
| Contacts.VcfLinesShape | cli.py:150-156 | the vCard output is seven lines per written contact, and block `j` is the card of contact `j` |
| Contacts.CardFullName | cli.py:154 | the FN line equals the stripped "FN:first last"; with no last name and a first name that does not end in whitespace it is "FN:" and the first name |
| Contacts.EmptyPhonesDedupe | cli.py:129-139 | a contact whose phone is missing or empty normalizes to the key "", and with deduplication it is written exactly when no earlier contact has the key "", so of all phoneless contacts only the first is written |

## Left out

- Reading the JSON file and writing the output file are not modelled. The
  contact list is the input of `Convert`, and the CSV rows and vCard lines
  it writes are its results.
- The CSV writer's quoting and `\r\n` line endings are not modelled. Each
  row is the list of its fields.
- Command-line parsing is not modelled. The options that reach the loop
  form the `Options` value.
- The default output name, taken from the clock, is not modelled.
- The two early exits are not modelled: a missing input file, and a JSON
  file without `contacts.list`. They happen before the loop.
- Colours, the banner, the summary printout and the progress bar are
  printing only.
- JSON values that are not strings are not modelled. A key is either
  absent (`None`, read as "") or holds a string, so a `null` or numeric
  phone is out of scope.
- Contacts.Process: it takes the normalizer as a function parameter, and
  `Convert` passes `NormalizeContact` with the country and the table. The
  normalization still happens inside the loop, once per contact.
- Contacts.Card: the FN line is written as "FN:" followed by the
  right-trimmed "first last". `Contacts.CardFullName` proves that this
  equals the stripped "FN:first last" the code writes.

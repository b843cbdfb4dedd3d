// The contact transformer: the per-contact normalize / dedupe / emit loop
// of `main`, with the CSV header and the vCard layout it writes.
module Contacts {
  import opened Text
  import opened Phone

  /** One element of `contacts.list`; an absent key is `None`. */
  datatype RawContact = RawContact(firstName: Option<string>, lastName: Option<string>, phoneNumber: Option<string>)

  datatype NameMode = First | Last | Both
  datatype Dedupe = NoDedupe | ByPhone
  datatype Format = Csv | Vcf

  /** The parsed command-line options that reach the loop. */
  datatype Options = Options(nameMode: NameMode, country: Option<string>, dedupe: Dedupe, format: Format)

  /** A contact after its phone went through the normalizer. */
  datatype Contact = Contact(first: string, last: string, phone: string, applied00: bool, appliedCountry: bool)

  /** The counters printed after the run. */
  datatype Summary = Summary(total: nat, written: nat, dupes: nat, normalized00: nat, normalizedCountry: nat)

  /** `c.get(key, "")` */
  function Field(v: Option<string>): string {
    if v.Some? then v.value else ""
  }

  /** The fields the loop reads from one contact, with the phone normalized. */
  function NormalizeContact(c: RawContact, country: Option<string>, table: map<string, string>): Contact {
    var n := Normalize(Field(c.phoneNumber), country, table);
    Contact(Field(c.firstName), Field(c.lastName), n.phone, n.applied00, n.appliedCountry)
  }

  /** Every contact of the list, normalized. */
  function NormalizeAll(cs: seq<RawContact>, country: Option<string>, table: map<string, string>): seq<Contact> {
    seq(|cs|, i requires 0 <= i < |cs| => NormalizeContact(cs[i], country, table))
  }

  // ---------- Deduplication ----------
  // The run is specified on the first `n` normalized contacts, so that each
  // loop step adds one contact.

  /** The phones of the first `n` contacts. */
  function PhoneSet(ns: seq<Contact>, n: nat): set<string>
    requires n <= |ns|
  {
    if n == 0 then {} else PhoneSet(ns, n - 1) + {ns[n - 1].phone}
  }

  /** Contact `i` is dropped when phone deduplication is on and its phone
      occurs among the contacts before it. */
  predicate IsDuplicate(ns: seq<Contact>, i: nat, dedupe: Dedupe)
    requires i < |ns|
  {
    dedupe == ByPhone && ns[i].phone in PhoneSet(ns, i)
  }

  /** The contacts among the first `n` that are written, in input order. */
  function Kept(ns: seq<Contact>, n: nat, dedupe: Dedupe): seq<Contact>
    requires n <= |ns|
  {
    if n == 0 then []
    else if IsDuplicate(ns, n - 1, dedupe) then Kept(ns, n - 1, dedupe)
    else Kept(ns, n - 1, dedupe) + [ns[n - 1]]
  }

  /** The positions of the contacts among the first `n` that are written. */
  function KeptIndices(ns: seq<Contact>, n: nat, dedupe: Dedupe): seq<nat>
    requires n <= |ns|
  {
    if n == 0 then []
    else if IsDuplicate(ns, n - 1, dedupe) then KeptIndices(ns, n - 1, dedupe)
    else KeptIndices(ns, n - 1, dedupe) + [n - 1]
  }

  /** The number of contacts among the first `n` dropped as duplicates. */
  function Dropped(ns: seq<Contact>, n: nat, dedupe: Dedupe): nat
    requires n <= |ns|
  {
    if n == 0 then 0
    else Dropped(ns, n - 1, dedupe) + (if IsDuplicate(ns, n - 1, dedupe) then 1 else 0)
  }

  /** How many of the first `n` contacts had a "00" prefix rewritten. */
  function Count00(ns: seq<Contact>, n: nat): nat
    requires n <= |ns|
  {
    if n == 0 then 0 else Count00(ns, n - 1) + (if ns[n - 1].applied00 then 1 else 0)
  }

  /** How many of the first `n` contacts had a country rule applied. */
  function CountCountry(ns: seq<Contact>, n: nat): nat
    requires n <= |ns|
  {
    if n == 0 then 0 else CountCountry(ns, n - 1) + (if ns[n - 1].appliedCountry then 1 else 0)
  }

  // ---------- Emission ----------

  /** The CSV header row. */
  function Header(mode: NameMode): seq<string> {
    (if mode == First || mode == Both then ["First Name"] else [])
    + (if mode == Last || mode == Both then ["Last Name"] else [])
    + ["Phone"]
  }

  /** The field of `n` that the column titled `title` holds. */
  function Column(title: string, n: Contact): string {
    if title == "First Name" then n.first
    else if title == "Last Name" then n.last
    else n.phone
  }

  /** The CSV data row of a written contact. */
  function Row(mode: NameMode, n: Contact): seq<string> {
    (if mode == First || mode == Both then [n.first] else [])
    + (if mode == Last || mode == Both then [n.last] else [])
    + [n.phone]
  }

  /** What the CSV writer receives: the header row, then one row per written contact. */
  function CsvRows(mode: NameMode, ks: seq<Contact>): seq<seq<string>> {
    if ks == [] then [Header(mode)] else CsvRows(mode, ks[..|ks| - 1]) + [Row(mode, ks[|ks| - 1])]
  }

  /** The lines written for one contact: the vCard and the blank separator
      line. The FN line is "FN:first last" stripped; since "FN:" neither
      begins nor ends with whitespace, that is "FN:" followed by "first last"
      right-trimmed (`CardFullName`). */
  function Card(n: Contact): seq<string> {
    [ "BEGIN:VCARD",
      "VERSION:3.0",
      "N:" + n.last + ";" + n.first + ";;;",
      "FN:" + TrimRight(n.first + " " + n.last),
      "TEL;TYPE=CELL:" + n.phone,
      "END:VCARD",
      "" ]
  }

  /** What the VCF file receives: one card after another. */
  function VcfLines(ks: seq<Contact>): seq<string> {
    if ks == [] then [] else VcfLines(ks[..|ks| - 1]) + Card(ks[|ks| - 1])
  }

  // ---------- The conversion loop ----------

  /** The loop's state after some contacts: the phones seen, the counters
      and what has been written to each kind of output. */
  datatype Run = Run(seen: set<string>, written: nat, dupes: nat, normalized00: nat, normalizedCountry: nat,
                     rows: seq<seq<string>>, lines: seq<string>)

  /** The state before the first contact: a CSV output already holds its header. */
  function Start(opts: Options): Run {
    Run({}, 0, 0, 0, 0, if opts.format == Csv then [Header(opts.nameMode)] else [], [])
  }

  /** The effect of one normalized contact on the state. */
  function Visit(r: Run, c: Contact, opts: Options): Run {
    var n00 := r.normalized00 + (if c.applied00 then 1 else 0);
    var nCountry := r.normalizedCountry + (if c.appliedCountry then 1 else 0);
    if opts.dedupe == ByPhone && c.phone in r.seen then
      Run(r.seen, r.written, r.dupes + 1, n00, nCountry, r.rows, r.lines)
    else
      Run(if opts.dedupe == ByPhone then r.seen + {c.phone} else r.seen,
          r.written + 1, r.dupes, n00, nCountry,
          if opts.format == Csv then r.rows + [Row(opts.nameMode, c)] else r.rows,
          if opts.format == Vcf then r.lines + Card(c) else r.lines)
  }

  /** The state after the first `n` contacts. */
  function RunUpTo(ns: seq<Contact>, n: nat, opts: Options): Run
    requires n <= |ns|
  {
    if n == 0 then Start(opts) else Visit(RunUpTo(ns, n - 1, opts), ns[n - 1], opts)
  }

  /** Converts the contact list: returns the CSV rows (header first) or the
      vCard lines, whichever `opts.format` selects, and the run's counters. */
  method Convert(contacts: seq<RawContact>, opts: Options, table: map<string, string>)
    returns (rows: seq<seq<string>>, lines: seq<string>, summary: Summary)
    ensures var ns := NormalizeAll(contacts, opts.country, table);
            var ks := Kept(ns, |ns|, opts.dedupe);
            && summary == Summary(|contacts|, |ks|, Dropped(ns, |ns|, opts.dedupe), Count00(ns, |ns|), CountCountry(ns, |ns|))
            && rows == (if opts.format == Csv then CsvRows(opts.nameMode, ks) else [])
            && lines == (if opts.format == Vcf then VcfLines(ks) else [])
    ensures summary.written + summary.dupes == summary.total
    ensures opts.dedupe == NoDedupe ==> summary.dupes == 0 && summary.written == summary.total
  {
    var normalize := (c: RawContact) => NormalizeContact(c, opts.country, table);
    rows, lines, summary := Process(contacts, normalize, opts);
    assert seq(|contacts|, i requires 0 <= i < |contacts| => normalize(contacts[i])) == NormalizeAll(contacts, opts.country, table);
  }

  /** The loop of `main`: normalizes each contact with `normalize`, drops
      repeated phones when deduplicating, and writes the rest. */
  method Process(contacts: seq<RawContact>, normalize: RawContact -> Contact, opts: Options)
    returns (rows: seq<seq<string>>, lines: seq<string>, summary: Summary)
    ensures var ns := seq(|contacts|, i requires 0 <= i < |contacts| => normalize(contacts[i]));
            var ks := Kept(ns, |ns|, opts.dedupe);
            && summary == Summary(|contacts|, |ks|, Dropped(ns, |ns|, opts.dedupe), Count00(ns, |ns|), CountCountry(ns, |ns|))
            && rows == (if opts.format == Csv then CsvRows(opts.nameMode, ks) else [])
            && lines == (if opts.format == Vcf then VcfLines(ks) else [])
    ensures summary.written + summary.dupes == summary.total
    ensures opts.dedupe == NoDedupe ==> summary.dupes == 0 && summary.written == summary.total
  {
    ghost var ns := seq(|contacts|, i requires 0 <= i < |contacts| => normalize(contacts[i]));
    var mode := opts.nameMode;
    var seen: set<string> := {};
    var written, dupes, normalized00, normalizedCountry := 0, 0, 0, 0;
    rows, lines := [], [];

    if opts.format == Csv {
      rows := rows + [Header(mode)];
    }

    var i := 0;
    while i < |contacts|
      invariant 0 <= i <= |contacts|
      invariant seen == RunUpTo(ns, i, opts).seen
      invariant written == RunUpTo(ns, i, opts).written && dupes == RunUpTo(ns, i, opts).dupes
      invariant normalized00 == RunUpTo(ns, i, opts).normalized00
      invariant normalizedCountry == RunUpTo(ns, i, opts).normalizedCountry
      invariant rows == RunUpTo(ns, i, opts).rows && lines == RunUpTo(ns, i, opts).lines
    {
      var c := normalize(contacts[i]);
      assert RunUpTo(ns, i + 1, opts) == Visit(RunUpTo(ns, i, opts), c, opts);
      normalized00 := normalized00 + (if c.applied00 then 1 else 0);
      normalizedCountry := normalizedCountry + (if c.appliedCountry then 1 else 0);

      if opts.dedupe == ByPhone && c.phone in seen {
        dupes := dupes + 1;
      } else {
        if opts.dedupe == ByPhone {
          seen := seen + {c.phone};
        }
        if opts.format == Csv {
          rows := rows + [Row(mode, c)];
        } else {
          lines := lines + Card(c);
        }
        written := written + 1;
      }
      i := i + 1;
    }

    summary := Summary(|contacts|, written, dupes, normalized00, normalizedCountry);
    RunCounts(ns, |ns|, opts);
    RunOutput(ns, |ns|, opts);
    KeptAndDropped(ns, |ns|, opts.dedupe);
    if opts.dedupe == NoDedupe {
      KeepAll(ns, |ns|);
    }
  }

  /** The phones the loop has seen are those of the contacts visited so far,
      and it only collects them when deduplicating. */
  lemma {:induction false} RunSeen(ns: seq<Contact>, n: nat, opts: Options)
    requires n <= |ns|
    ensures RunUpTo(ns, n, opts).seen == if opts.dedupe == ByPhone then PhoneSet(ns, n) else {}
  {
    if n > 0 {
      RunSeen(ns, n - 1, opts);
    }
  }

  /** The loop's counters: the written contacts, the duplicates dropped and
      how often each normalization rule fired. */
  lemma {:induction false} RunCounts(ns: seq<Contact>, n: nat, opts: Options)
    requires n <= |ns|
    ensures var r := RunUpTo(ns, n, opts);
            && r.written == |Kept(ns, n, opts.dedupe)| && r.dupes == Dropped(ns, n, opts.dedupe)
            && r.normalized00 == Count00(ns, n) && r.normalizedCountry == CountCountry(ns, n)
  {
    if n > 0 {
      RunCounts(ns, n - 1, opts);
      RunSeen(ns, n - 1, opts);
    }
  }

  /** The loop's output: the header and a row per written contact, or a
      card per written contact. */
  lemma {:induction false} RunOutput(ns: seq<Contact>, n: nat, opts: Options)
    requires n <= |ns|
    ensures var r, ks := RunUpTo(ns, n, opts), Kept(ns, n, opts.dedupe);
            && r.rows == (if opts.format == Csv then CsvRows(opts.nameMode, ks) else [])
            && r.lines == (if opts.format == Vcf then VcfLines(ks) else [])
  {
    if n > 0 {
      RunOutput(ns, n - 1, opts);
      RunSeen(ns, n - 1, opts);
      var r, k := RunUpTo(ns, n - 1, opts), Kept(ns, n - 1, opts.dedupe);
      VisitOutput(r, ns[n - 1], opts, k);
      assert Kept(ns, n, opts.dedupe) == if opts.dedupe == ByPhone && ns[n - 1].phone in r.seen then k else k + [ns[n - 1]];
    }
  }

  /** One visit appends the contact's row or card exactly when the contact
      is written. */
  lemma VisitOutput(r: Run, c: Contact, opts: Options, ks: seq<Contact>)
    requires r.rows == (if opts.format == Csv then CsvRows(opts.nameMode, ks) else [])
    requires r.lines == (if opts.format == Vcf then VcfLines(ks) else [])
    ensures var v, ks' := Visit(r, c, opts), if opts.dedupe == ByPhone && c.phone in r.seen then ks else ks + [c];
            && v.rows == (if opts.format == Csv then CsvRows(opts.nameMode, ks') else [])
            && v.lines == (if opts.format == Vcf then VcfLines(ks') else [])
  {
    EmitOne(opts.nameMode, ks, c);
  }

  /** Emitting one more written contact appends its row or its card. */
  lemma EmitOne(mode: NameMode, ks: seq<Contact>, n: Contact)
    ensures CsvRows(mode, ks + [n]) == CsvRows(mode, ks) + [Row(mode, n)]
    ensures VcfLines(ks + [n]) == VcfLines(ks) + Card(n)
  {
    assert (ks + [n])[..|ks|] == ks;
  }

  // ---------- Properties of the written output ----------

  /** A phone has been seen exactly when one of the first `n` contacts carries it. */
  lemma {:induction false} PhoneSetMembers(ns: seq<Contact>, n: nat, p: string)
    requires n <= |ns|
    ensures p in PhoneSet(ns, n) <==> exists i :: 0 <= i < n && ns[i].phone == p
  {
    if n > 0 {
      PhoneSetMembers(ns, n - 1, p);
      if ns[n - 1].phone == p {
        assert 0 <= n - 1 < n && ns[n - 1].phone == p;
      }
    }
  }

  /** Every contact is either written or dropped, never both. */
  lemma {:induction false} KeptAndDropped(ns: seq<Contact>, n: nat, dedupe: Dedupe)
    requires n <= |ns|
    ensures |Kept(ns, n, dedupe)| + Dropped(ns, n, dedupe) == n
  {
    if n > 0 {
      KeptAndDropped(ns, n - 1, dedupe);
    }
  }

  /** Without deduplication every contact is written, in order, and none is dropped. */
  lemma {:induction false} KeepAll(ns: seq<Contact>, n: nat)
    requires n <= |ns|
    ensures Kept(ns, n, NoDedupe) == ns[..n] && Dropped(ns, n, NoDedupe) == 0
  {
    if n > 0 {
      KeepAll(ns, n - 1);
      assert ns[..n] == ns[..n - 1] + [ns[n - 1]];
    }
  }

  /** No counter exceeds the number of contacts visited. */
  lemma {:induction false} CountsBounded(ns: seq<Contact>, n: nat, dedupe: Dedupe)
    requires n <= |ns|
    ensures Dropped(ns, n, dedupe) <= n && Count00(ns, n) <= n && CountCountry(ns, n) <= n
  {
    if n > 0 {
      CountsBounded(ns, n - 1, dedupe);
    }
  }

  /** The counters count every contact, written or dropped: a run with
      deduplication reports the same rule counts as the run without it, so
      dropping a duplicate does not undo the normalizations it went through. */
  lemma {:induction false} CountsIncludeDropped(ns: seq<Contact>, n: nat, opts: Options)
    requires n <= |ns|
    ensures RunUpTo(ns, n, opts).normalized00 == RunUpTo(ns, n, opts.(dedupe := NoDedupe)).normalized00
    ensures RunUpTo(ns, n, opts).normalizedCountry == RunUpTo(ns, n, opts.(dedupe := NoDedupe)).normalizedCountry
  {
    if n > 0 {
      CountsIncludeDropped(ns, n - 1, opts);
    }
  }

  /** `PhoneSet` of a prefix depends only on that prefix. */
  lemma {:induction false} SamePhonesOnPrefix(a: seq<Contact>, b: seq<Contact>, n: nat)
    requires n <= |a| && n <= |b| && a[..n] == b[..n]
    ensures PhoneSet(a, n) == PhoneSet(b, n)
  {
    if n > 0 {
      assert a[n - 1] == a[..n][n - 1] == b[..n][n - 1] == b[n - 1];
      assert a[..n - 1] == a[..n][..n - 1];
      SamePhonesOnPrefix(a, b, n - 1);
    }
  }

  /** With phone deduplication the written contacts carry every phone of the input. */
  lemma {:induction false} KeptCoversPhones(ns: seq<Contact>, n: nat)
    requires n <= |ns|
    ensures var ks := Kept(ns, n, ByPhone);
            PhoneSet(ks, |ks|) == PhoneSet(ns, n)
  {
    if n > 0 {
      KeptCoversPhones(ns, n - 1);
      var k := Kept(ns, n - 1, ByPhone);
      if !IsDuplicate(ns, n - 1, ByPhone) {
        var k' := k + [ns[n - 1]];
        assert k'[..|k|] == k;
        SamePhonesOnPrefix(k, k', |k|);
      }
    }
  }

  /** With phone deduplication no two written contacts share a phone. */
  lemma {:induction false} KeptPhonesDistinct(ns: seq<Contact>, n: nat)
    requires n <= |ns|
    ensures var ks := Kept(ns, n, ByPhone);
            forall i, j :: 0 <= i < j < |ks| ==> ks[i].phone != ks[j].phone
  {
    if n > 0 {
      KeptPhonesDistinct(ns, n - 1);
      var k := Kept(ns, n - 1, ByPhone);
      if !IsDuplicate(ns, n - 1, ByPhone) {
        var c := ns[n - 1];
        KeptCoversPhones(ns, n - 1);
        forall i | 0 <= i < |k|
          ensures k[i].phone != c.phone
        {
          PhoneSetMembers(k, |k|, k[i].phone);
        }
        var ks := k + [c];
        assert Kept(ns, n, ByPhone) == ks;
        forall i, j | 0 <= i < j < |ks|
          ensures ks[i].phone != ks[j].phone
        {
          if j < |k| {
            assert ks[i] == k[i] && ks[j] == k[j];
          } else {
            assert ks[i] == k[i] && ks[j] == c;
          }
        }
      }
    }
  }

  /** `KeptIndices` lists the positions of the written contacts: strictly
      increasing (input order is kept) and in step with `Kept`. */
  lemma {:induction false} KeptIndicesMatch(ns: seq<Contact>, n: nat, dedupe: Dedupe)
    requires n <= |ns|
    ensures var idx, ks := KeptIndices(ns, n, dedupe), Kept(ns, n, dedupe);
            && |idx| == |ks|
            && (forall j :: 0 <= j < |idx| ==> idx[j] < n && ks[j] == ns[idx[j]])
            && (forall j, k :: 0 <= j < k < |idx| ==> idx[j] < idx[k])
  {
    if n > 0 {
      KeptIndicesMatch(ns, n - 1, dedupe);
    }
  }

  /** A contact is written exactly when deduplication is off or no earlier
      contact has the same phone: the first occurrence of a phone is kept. */
  lemma {:induction false} KeptIndicesExactly(ns: seq<Contact>, n: nat, dedupe: Dedupe, i: nat)
    requires i < n <= |ns|
    ensures i in KeptIndices(ns, n, dedupe)
            <==> dedupe == NoDedupe || forall j :: 0 <= j < i ==> ns[j].phone != ns[i].phone
  {
    KeptIndicesMatch(ns, n - 1, dedupe);
    PhoneSetMembers(ns, i, ns[i].phone);
    if i < n - 1 {
      KeptIndicesExactly(ns, n - 1, dedupe, i);
    }
  }

  /** The header names the chosen name columns, first name before last
      name, and always ends with the phone column. */
  lemma HeaderColumns(mode: NameMode)
    ensures var h := Header(mode);
            && |h| == (if mode == Both then 3 else 2) && h[|h| - 1] == "Phone"
            && ("First Name" in h <==> mode != Last) && ("Last Name" in h <==> mode != First)
            && (mode == Both ==> h[0] == "First Name" && h[1] == "Last Name")
  {
  }

  /** Every data row lines up with the header: under each column title it
      holds the field that title names. */
  lemma RowUnderHeader(mode: NameMode, n: Contact)
    ensures |Row(mode, n)| == |Header(mode)|
    ensures forall j :: 0 <= j < |Row(mode, n)| ==> Row(mode, n)[j] == Column(Header(mode)[j], n)
  {
  }

  /** The CSV output is the header followed by one row per written contact, in order. */
  lemma {:induction false} CsvRowsShape(mode: NameMode, ks: seq<Contact>)
    ensures var rs := CsvRows(mode, ks);
            && |rs| == |ks| + 1 && rs[0] == Header(mode)
            && (forall j :: 0 <= j < |ks| ==> rs[j + 1] == Row(mode, ks[j]))
  {
    if ks != [] {
      CsvRowsShape(mode, ks[..|ks| - 1]);
    }
  }

  /** The vCard output is one seven-line block per written contact, in order. */
  lemma {:induction false} VcfLinesShape(ks: seq<Contact>)
    ensures var ls := VcfLines(ks);
            && |ls| == 7 * |ks|
            && (forall j :: 0 <= j < |ks| ==> ls[7 * j..7 * j + 7] == Card(ks[j]))
  {
    if ks != [] {
      var p := ks[..|ks| - 1];
      VcfLinesShape(p);
      var ls := VcfLines(ks);
      assert ls == VcfLines(p) + Card(ks[|ks| - 1]);
      forall j | 0 <= j < |ks|
        ensures ls[7 * j..7 * j + 7] == Card(ks[j])
      {
        if j < |p| {
          assert 7 * j + 7 <= 7 * |p|;
          assert ls[7 * j..7 * j + 7] == VcfLines(p)[7 * j..7 * j + 7];
        } else {
          assert 7 * j == 7 * |p|;
          assert ls[7 * j..7 * j + 7] == Card(ks[|ks| - 1]);
        }
      }
    }
  }

  /** The FN line is the stripped "FN:first last": only the trailing
      whitespace of the name goes, so a leading blank (empty first name)
      stays, and with no last name the line is "FN:" and the first name. */
  lemma CardFullName(n: Contact)
    ensures Card(n)[3] == Strip("FN:" + n.first + " " + n.last)
    ensures n.last == "" && (n.first == "" || !IsSpace(n.first[|n.first| - 1])) ==> Card(n)[3] == "FN:" + n.first
  {
    assert "FN:" + n.first + " " + n.last == "FN:" + (n.first + " " + n.last);
    StripAfterTag("FN:", n.first + " " + n.last);
    if n.last == "" && (n.first == "" || !IsSpace(n.first[|n.first| - 1])) {
      TrimRightAfter(n.first, " ");
      assert TrimRight(" ") == "";
      assert n.first + "" == n.first;
    }
  }

  /** A contact whose phone is missing or empty is normalized to the key ""
      and, with deduplication, it is written exactly when no earlier contact
      also ended up with the key "": only the first phoneless contact is kept. */
  lemma EmptyPhonesDedupe(cs: seq<RawContact>, country: Option<string>, table: map<string, string>, i: nat)
    requires i < |cs| && Field(cs[i].phoneNumber) == ""
    ensures var ns := NormalizeAll(cs, country, table);
            && ns[i].phone == ""
            && (i in KeptIndices(ns, |ns|, ByPhone) <==> forall j :: 0 <= j < i ==> ns[j].phone != "")
  {
    var ns := NormalizeAll(cs, country, table);
    NormalizeFlags("", country, table);
    KeptIndicesExactly(ns, |ns|, ByPhone, i);
  }
}

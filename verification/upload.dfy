/** Sending files to a worker over its standard input: a sixteen-digit length, a
    JSON object of base64 strings, and the reader that runs in the pod. */
module Upload {
  import opened Common
  import opened Workspace
  import Base64
  import opened Json
  import opened Paths
  import opened Disks

  // ---- framing --------------------------------------------------------------

  function Digits(n: nat): (d: Str)
    ensures |d| >= 1
  {
    if n < 10 then [48 + n] else Digits(n / 10) + [48 + n % 10]
  }

  function Zeros(k: nat): (z: Str)
    ensures |z| == k
  {
    seq(k, i => 48)
  }

  /** `f"{n:016d}"`. */
  function Header(n: nat): Str {
    var d := Digits(n);
    if |d| < 16 then Zeros(16 - |d|) + d else d
  }

  predicate IsDigit(c: Code) { 48 <= c <= 57 }

  /** `int` of a digit string; None stands for its ValueError. */
  function ParseInt(s: Str): Option<nat> {
    if s == [] || !IsDigit(s[|s| - 1]) then None
    else if |s| == 1 then Some(s[0] - 48)
    else
      match ParseInt(s[..|s| - 1])
      case None => None
      case Some(n) => Some(n * 10 + (s[|s| - 1] - 48))
  }

  function FieldOf(item: Item): Field { Field(item.path, JStr(Base64.Encode(item.data))) }

  function Fields(items: seq<Item>): seq<Field> {
    if items == [] then [] else [FieldOf(items[0])] + Fields(items[1..])
  }

  function Payload(items: seq<Item>): Str { Dumps(JObj(Fields(items))) }

  function Framed(items: seq<Item>): Str { Header(|Payload(items)|) + Payload(items) }

  // ---- the reader in the pod ------------------------------------------------

  /** Standard input: the text still to come, and how it will be cut up. */
  class Stdin {
    var rest: Str
    var chunks: seq<nat>

    constructor (text: Str, chunks: seq<nat>)
      ensures rest == text && this.chunks == chunks
    {
      rest := text;
      this.chunks := chunks;
    }

    /** At most `k` characters; none only at the end of the text. */
    method Read(k: nat) returns (c: Str)
      requires k > 0
      modifies this
      ensures |c| <= k && c + rest == old(rest)
      ensures c == [] <==> old(rest) == []
    {
      var size := if |chunks| > 0 && chunks[0] > 0 then chunks[0] else 1;
      var n := if size < k then size else k;
      n := if n < |rest| then n else |rest|;
      c := rest[..n];
      rest := rest[n..];
      if |chunks| > 0 {
        chunks := chunks[1..];
      }
    }
  }

  function Take(s: Str, n: nat): Str { if n <= |s| then s[..n] else s }
  function Drop(s: Str, n: nat): Str { if n <= |s| then s[n..] else [] }

  /** `readn`: exactly `n` characters, however they arrive, or all there are. */
  method ReadN(input: Stdin, n: nat) returns (buf: Str)
    modifies input
    ensures buf == Take(old(input.rest), n) && input.rest == Drop(old(input.rest), n)
  {
    buf := [];
    while |buf| < n
      invariant |buf| <= n && buf + input.rest == old(input.rest)
      decreases n - |buf|
    {
      var c := input.Read(n - |buf|);
      if c == [] {
        break;
      }
      buf := buf + c;
    }
  }

  // ---- dictionaries ---------------------------------------------------------

  function IndexOf(d: seq<Field>, key: Str): (i: nat)
    ensures i <= |d|
    ensures i < |d| ==> d[i].key == key
    ensures forall j | 0 <= j < i :: d[j].key != key
  {
    if d == [] || d[0].key == key then 0 else 1 + IndexOf(d[1..], key)
  }

  /** `d[key] = val`: an old key keeps its place. */
  function Put(d: seq<Field>, f: Field): seq<Field> {
    var i := IndexOf(d, f.key);
    if i < |d| then d[i := f] else d + [f]
  }

  /** The dictionary `json.loads` builds from an object. */
  function DictOf(fields: seq<Field>): seq<Field> {
    if fields == [] then [] else Put(DictOf(fields[..|fields| - 1]), fields[|fields| - 1])
  }

  predicate DistinctKeys(fields: seq<Field>) { forall i, j | 0 <= i < j < |fields| :: fields[i].key != fields[j].key }

  lemma {:induction false} DictOfDistinct(fields: seq<Field>)
    requires DistinctKeys(fields)
    ensures DictOf(fields) == fields
  {
    if fields != [] {
      var front := fields[..|fields| - 1];
      DictOfDistinct(front);
      assert IndexOf(front, fields[|fields| - 1].key) == |front|;
      assert front + [fields[|fields| - 1]] == fields;
    }
  }

  /** The items a received dictionary stands for, if every value is base64. */
  function Decoded(d: seq<Field>): Option<seq<Item>> {
    if d == [] then Some([])
    else if !d[0].val.JStr? then None
    else
      match (Base64.Decode(d[0].val.s), Decoded(d[1..]))
      case (Some(data), Some(items)) => Some([Item(d[0].key, data)] + items)
      case _ => None
  }

  /** What the reader takes the text on its standard input to be. */
  function Received(text: Str): Option<seq<Item>> {
    match ParseInt(Take(text, 16))
    case None => None
    case Some(n) =>
      match Loads(Take(Drop(text, 16), n))
      case Some(JObj(fields)) => Decoded(DictOf(fields))
      case _ => None
  }

  /** What an upload below `root` leaves on the disk; None when it is not confirmed. */
  function Uploaded(d: Disk, root: Str, text: Str): Option<Disk> {
    match Received(text)
    case None => None
    case Some(items) => WriteItems(d, root, items)
  }

  // The same for a dictionary of base64 strings.
  function Stored(fields: seq<Field>, d: Disk, root: Str): Option<Disk> {
    match Decoded(fields)
    case None => None
    case Some(items) => WriteItems(d, root, items)
  }

  lemma StoredNext(fields: seq<Field>, d: Disk, root: Str)
    requires fields != []
    ensures Stored(fields, d, root)
            == if !fields[0].val.JStr? then None
               else match Base64.Decode(fields[0].val.s)
                 case None => None
                 case Some(data) =>
                   match Write(d, OpenPath(root, fields[0].key), data)
                   case None => None
                   case Some(d1) => Stored(fields[1..], d1, root)
  {
    if Decoded(fields).Some? {
      var items := Decoded(fields).value;
      assert items == [items[0]] + items[1..] && items[1..] == Decoded(fields[1..]).value;
    }
  }

  /** The script in the pod: read the frame, decode it, write file by file. */
  method RunUploader(input: Stdin, d: Disk, root: Str) returns (r: Option<Disk>)
    modifies input
    ensures r == Uploaded(d, root, old(input.rest))
  {
    var header := ReadN(input, 16);
    var n := ParseInt(header);
    if n.None? {
      return None;
    }
    var text := ReadN(input, n.value);
    var v := Loads(text);
    if v.None? || !v.value.JObj? {
      return None;
    }
    var data := DictOf(v.value.fields);
    var out := d;
    var i := 0;
    while i < |data|
      invariant 0 <= i <= |data|
      invariant Stored(data[i..], out, root) == Stored(data, d, root)
    {
      StoredNext(data[i..], out, root);
      assert data[i..][1..] == data[i + 1..];
      if !data[i].val.JStr? {
        return None;
      }
      var bytes := Base64.Decode(data[i].val.s);
      if bytes.None? {
        return None;
      }
      var written := Write(out, OpenPath(root, data[i].key), bytes.value);
      if written.None? {
        return None;
      }
      out := written.value;
      i := i + 1;
    }
    r := Some(out);
  }

  // ---- the round trip -------------------------------------------------------

  lemma {:induction false} ParseDigits(n: nat)
    ensures ParseInt(Digits(n)) == Some(n)
  {
    if n >= 10 {
      ParseDigits(n / 10);
      assert Digits(n)[..|Digits(n)| - 1] == Digits(n / 10);
    }
  }

  lemma {:induction false} ParseZeros(k: nat, d: Str, n: nat)
    requires ParseInt(d) == Some(n)
    ensures ParseInt(Zeros(k) + d) == Some(n)
    decreases |d|
  {
    var s := Zeros(k) + d;
    if |d| == 1 {
      assert s[..|s| - 1] == Zeros(k);
      ParseAllZeros(k);
    } else {
      assert s[..|s| - 1] == Zeros(k) + d[..|d| - 1];
      ParseZeros(k, d[..|d| - 1], ParseInt(d[..|d| - 1]).value);
    }
  }

  lemma {:induction false} ParseAllZeros(k: nat)
    ensures k > 0 ==> ParseInt(Zeros(k)) == Some(0)
  {
    if k > 1 {
      ParseAllZeros(k - 1);
      assert Zeros(k)[..k - 1] == Zeros(k - 1);
    }
  }

  function Pow10(k: nat): nat { if k == 0 then 1 else 10 * Pow10(k - 1) }

  lemma {:induction false} DigitsLength(n: nat, k: nat)
    requires k >= 1
    ensures |Digits(n)| <= k <==> n < Pow10(k)
    decreases k
  {
    if k > 1 && n >= 10 {
      DigitsLength(n / 10, k - 1);
    } else if n >= 10 {
      assert Pow10(1) == 10;
    } else {
      PowGrows(k);
    }
  }

  lemma {:induction false} PowGrows(k: nat)
    requires k >= 1
    ensures Pow10(k) >= 10
  {
    if k > 1 {
      PowGrows(k - 1);
    }
  }

  lemma HeaderReads(n: nat)
    requires n < Pow10(16)
    ensures |Header(n)| == 16 && ParseInt(Header(n)) == Some(n)
  {
    DigitsLength(n, 16);
    ParseDigits(n);
    if |Digits(n)| < 16 {
      ParseZeros(16 - |Digits(n)|, Digits(n), n);
    }
  }

  lemma {:induction false} DigitsAreDigits(n: nat)
    ensures forall i | 0 <= i < |Digits(n)| :: IsDigit(Digits(n)[i])
    ensures n >= 1 ==> Digits(n)[0] > 48
  {
    if n >= 10 {
      DigitsAreDigits(n / 10);
    }
  }

  lemma {:induction false} ParsePositive(s: Str)
    requires s != [] && s[0] > 48 && forall i | 0 <= i < |s| :: IsDigit(s[i])
    ensures ParseInt(s).Some? && ParseInt(s).value >= 1
  {
    if |s| > 1 {
      ParsePositive(s[..|s| - 1]);
    }
  }

  /** The number a string of decimal digits stands for, from the first on. */
  function Decimal(s: Str): int {
    if s == [] then 0 else (s[0] - '0' as int) * Pow10(|s| - 1) + Decimal(s[1..])
  }

  lemma {:induction false} DecimalNext(s: Str, c: Code)
    ensures Decimal(s + [c]) == 10 * Decimal(s) + (c - '0' as int)
  {
    if s == [] {
      assert s + [c] == [c] && [c][1..] == [];
    } else {
      assert (s + [c])[1..] == s[1..] + [c];
      DecimalNext(s[1..], c);
      var d: int := s[0] - '0' as int;
      assert d * Pow10(|s|) == 10 * (d * Pow10(|s| - 1));
    }
  }

  lemma {:induction false} ParseIsDecimal(s: Str)
    requires ParseInt(s).Some?
    ensures Decimal(s) == ParseInt(s).value && forall i | 0 <= i < |s| :: IsDigit(s[i])
  {
    var front, last := s[..|s| - 1], s[|s| - 1];
    assert s == front + [last];
    DecimalNext(front, last);
    if |s| > 1 {
      ParseIsDecimal(front);
    }
  }

  /** The header is sixteen decimal digits, most significant first, of the length. */
  lemma HeaderMeans(n: nat)
    requires n < Pow10(16)
    ensures |Header(n)| == 16 && Decimal(Header(n)) == n
    ensures forall i | 0 <= i < 16 :: '0' as int <= Header(n)[i] <= '9' as int
  {
    HeaderReads(n);
    ParseIsDecimal(Header(n));
  }

  // A frame whose length needs more than sixteen digits is misread: what the
  // reader takes for the payload begins with a digit.
  lemma LongFrameFails(items: seq<Item>)
    requires |Payload(items)| >= Pow10(16)
    ensures Received(Framed(items)).None?
  {
    var n, text := |Payload(items)|, Framed(items);
    DigitsLength(n, 16);
    DigitsAreDigits(n);
    PowGrows(16);
    var h := Digits(n);
    assert Take(text, 16) == h[..16];
    ParsePositive(h[..16]);
    var body := Take(Drop(text, 16), ParseInt(h[..16]).value);
    assert body[0] == Drop(text, 16)[0] == h[16];
    DigitNotRead(body);
  }

  lemma DigitNotRead(t: Str)
    requires t != [] && IsDigit(t[0])
    ensures Loads(t).None?
  {}

  lemma {:induction false} DecodedFields(items: seq<Item>)
    ensures Decoded(Fields(items)) == Some(items)
  {
    if items != [] {
      Base64.RoundTrip(items[0].data);
      DecodedFields(items[1..]);
      assert Fields(items)[1..] == Fields(items[1..]);
      assert [items[0]] + items[1..] == items;
    }
  }

  lemma {:induction false} FieldsAt(items: seq<Item>)
    ensures |Fields(items)| == |items|
    ensures forall i | 0 <= i < |items| :: Fields(items)[i] == FieldOf(items[i])
  {
    if items != [] {
      FieldsAt(items[1..]);
    }
  }

  lemma {:induction false} Base64Plain(b: Bytes)
    ensures NoPair(Base64.Encode(b)) && forall i | 0 <= i < |Base64.Encode(b)| :: Base64.Encode(b)[i] < 128
  {
    if |b| >= 3 {
      Base64Plain(b[3..]);
    }
  }

  /** `items` with the surrogate pairs of their paths joined. */
  function Joined(items: seq<Item>): seq<Item> {
    if items == [] then [] else [items[0].(path := Collapse(items[0].path))] + Joined(items[1..])
  }

  lemma {:induction false} CollapsedFields(items: seq<Item>)
    ensures CollapseFields(Fields(items)) == Fields(Joined(items))
  {
    if items != [] {
      CollapsedFields(items[1..]);
      Base64Plain(items[0].data);
      CollapseKeeps(Base64.Encode(items[0].data));
      assert Fields(items)[1..] == Fields(items[1..]);
      assert Joined(items)[1..] == Joined(items[1..]);
    }
  }

  lemma {:induction false} JoinedKeeps(items: seq<Item>)
    requires Sendable(items)
    ensures Joined(items) == items
  {
    if items != [] {
      assert Sendable(items[1..]) by {
        assert forall i | 0 <= i < |items[1..]| :: items[1..][i] == items[i + 1];
      }
      CollapseKeeps(items[0].path);
      JoinedKeeps(items[1..]);
      assert [items[0]] + items[1..] == items;
    }
  }

  // What is in the dictionary came from the fields.
  lemma {:induction false} DictOfFrom(fields: seq<Field>)
    ensures forall i | 0 <= i < |DictOf(fields)| :: DictOf(fields)[i] in fields
  {
    if fields != [] {
      DictOfFrom(fields[..|fields| - 1]);
    }
  }

  lemma {:induction false} DecodedKeys(d: seq<Field>)
    requires Decoded(d).Some?
    ensures |Decoded(d).value| == |d| && forall i | 0 <= i < |d| :: Decoded(d).value[i].path == d[i].key
  {
    if d != [] {
      DecodedKeys(d[1..]);
    }
  }

  lemma {:induction false} JoinedSendable(items: seq<Item>)
    ensures |Joined(items)| == |items| && Sendable(Joined(items))
  {
    if items != [] {
      JoinedSendable(items[1..]);
      CollapseHasNoPair(items[0].path);
      forall i | 0 <= i < |Joined(items)| ensures NoPair(Joined(items)[i].path) {
        if i > 0 {
          assert Joined(items)[i] == Joined(items[1..])[i - 1];
        }
      }
    }
  }

  lemma ShortFrameReceived(items: seq<Item>)
    requires |Payload(items)| < Pow10(16)
    ensures Received(Framed(items)) == Decoded(DictOf(Fields(Joined(items))))
  {
    var n, text := |Payload(items)|, Framed(items);
    HeaderReads(n);
    assert Take(text, 16) == Header(n);
    assert Take(Drop(text, 16), n) == Payload(items);
    LoadsDumps(JObj(Fields(items)));
    CollapsedFields(items);
  }

  lemma ReceivedSendable(items: seq<Item>)
    requires |Payload(items)| < Pow10(16) && Received(Framed(items)).Some?
    ensures Sendable(Received(Framed(items)).value)
  {
    ShortFrameReceived(items);
    var fields := Fields(Joined(items));
    var got := Received(Framed(items)).value;
    DictOfFrom(fields);
    DecodedKeys(DictOf(fields));
    JoinedSendable(items);
    FieldsAt(Joined(items));
    forall i | 0 <= i < |got| ensures NoPair(got[i].path) {
      assert DictOf(fields)[i] in fields;
      var j :| 0 <= j < |fields| && fields[j] == DictOf(fields)[i];
      assert fields[j] == FieldOf(Joined(items)[j]);
    }
  }

  /** The reader decodes exactly the files that were sent if and only if the
      payload is shorter than 10^16 characters and no path has a high surrogate
      directly before a low one. */
  lemma FrameRoundTrip(items: seq<Item>)
    requires Distinct(items)
    ensures Received(Framed(items)) == Some(items) <==> |Payload(items)| < Pow10(16) && Sendable(items)
  {
    if |Payload(items)| >= Pow10(16) {
      LongFrameFails(items);
    } else {
      ShortFrameReceived(items);
      if Sendable(items) {
        JoinedKeeps(items);
        FieldsAt(items);
        DictOfDistinct(Fields(items));
        DecodedFields(items);
      } else if Received(Framed(items)) == Some(items) {
        ReceivedSendable(items);
      }
    }
  }

  /** Over a tidy workspace, an upload of storable paths succeeds exactly when no
      path leads through another file, old or new, and then the workspace is the
      old one with the files on top. */
  lemma UploadOverlays(d: Disk, root: Str, items: seq<Item>)
    requires Tidy(d, root) && Distinct(items) && AllStorable(items) && Sendable(items)
    requires |Payload(items)| < Pow10(16)
    ensures var ws, r := View(d, root), Uploaded(d, root, Framed(items));
            && (r.Some? <==> PrefixFree(ws.Keys + AsMap(items).Keys))
            && (r.Some? ==> Tidy(r.value, root) && View(r.value, root) == ws + AsMap(items))
  {
    FrameRoundTrip(items);
    WritesAgree(d, root, items);
    ViewPrefixFree(d, root);
    WriteAllExact(View(d, root), items);
  }

  /** The keys a dictionary of files may have for an upload to store it as it is:
      each names one file below the root, and none leads through another. */
  ghost predicate Storing(items: seq<Item>) {
    AllStorable(items) && Sendable(items) && PrefixFree(AsMap(items).Keys)
  }

  // What was not storable is not what is seen afterwards.
  lemma SeenAreStorable(d: Disk, root: Str, items: seq<Item>)
    requires Empty(d, root) && |Payload(items)| < Pow10(16)
    requires var r := Uploaded(d, root, Framed(items)); r.Some? && View(r.value, root) == AsMap(items)
    ensures AllStorable(items) && Sendable(items)
  {
    ReceivedSendable(items);
    var got := Received(Framed(items)).value;
    WritesGood(d, root, got);
    var d' := Uploaded(d, root, Framed(items)).value;
    AsMapKeys(items);
    forall i | 0 <= i < |items| ensures Storable(items[i].path) && NoPair(items[i].path) {
      assert items[i].path in View(d', root);
      ViewStorable(d', root, items[i].path);
    }
  }

  /** Uploading distinct files to an empty workspace leaves exactly those files
      there if and only if the payload is shorter than 10^16 characters, each path
      is normal, relative, not the directory itself and free of surrogate pairs,
      and none leads through another. */
  lemma UploadDelivers(d: Disk, root: Str, items: seq<Item>)
    requires Empty(d, root) && Distinct(items)
    ensures var r := Uploaded(d, root, Framed(items));
            (r.Some? && View(r.value, root) == AsMap(items)) <==> |Payload(items)| < Pow10(16) && Storing(items)
  {
    var none: Dir := map[];
    var r := Uploaded(d, root, Framed(items));
    assert none.Keys + AsMap(items).Keys == AsMap(items).Keys && none + AsMap(items) == AsMap(items);
    if |Payload(items)| >= Pow10(16) {
      LongFrameFails(items);
    } else if AllStorable(items) && Sendable(items) {
      UploadOverlays(d, root, items);
    } else if r.Some? && View(r.value, root) == AsMap(items) {
      SeenAreStorable(d, root, items);
    }
  }

  /** A path that ends in the name of a directory fails the upload: the empty
      path, `.`, and whatever ends in a slash. */
  lemma DirectoryNameFails(d: Disk, root: Str, path: Str, data: Bytes)
    requires Mounted(d, root) && Special(Last(Split(path))) && NoPair(path)
    ensures Uploaded(d, root, Framed([Item(path, data)])).None?
  {
    var items := [Item(path, data)];
    SpecialRefused(d, root, path, data);
    if |Payload(items)| >= Pow10(16) {
      LongFrameFails(items);
    } else {
      FrameRoundTrip(items);
    }
  }

  /** Two spellings of one path are one file: of `p` and `./p`, sent together, only
      the second is left. */
  lemma AliasesMerge(d: Disk, root: Str, items: seq<Item>)
    requires Empty(d, root) && |items| == 2 && |Payload(items)| < Pow10(16)
    requires Storable(items[0].path) && NoPair(items[0].path)
    requires items[1].path == DOT + [SLASH] + items[0].path
    ensures var r := Uploaded(d, root, Framed(items));
            r.Some? && View(r.value, root) == map[items[0].path := items[1].data]
  {
    NoPairDotted(items[0].path);
    FrameRoundTrip(items);
    TwoWrites(d, root, items[0].path, items[0].data, items[1].data);
    WritesTwo(d, root, items);
  }

  lemma WritesTwo(d: Disk, root: Str, items: seq<Item>)
    requires |items| == 2 && Write(d, OpenPath(root, items[0].path), items[0].data).Some?
    ensures WriteItems(d, root, items)
            == Write(Write(d, OpenPath(root, items[0].path), items[0].data).value,
                     OpenPath(root, items[1].path), items[1].data)
  {
    var d1, rest := Write(d, OpenPath(root, items[0].path), items[0].data).value, items[1..];
    assert rest[0] == items[1] && rest[1..] == [];
    var second := Write(d1, OpenPath(root, rest[0].path), rest[0].data);
    assert second.Some? ==> WriteItems(second.value, root, rest[1..]) == second;
    assert WriteItems(d1, root, rest) == second;
  }

  lemma NoPairDotted(p: Str)
    requires NoPair(p)
    ensures NoPair(DOT + [SLASH] + p) && DOT + [SLASH] + p != p
  {
    NoPairCons(SLASH, p);
    NoPairCons(DOT[0], [SLASH] + p);
    assert DOT + [SLASH] + p == [DOT[0]] + ([SLASH] + p);
  }

  lemma TwoWrites(d: Disk, root: Str, p: Str, first: Bytes, second: Bytes)
    requires Empty(d, root) && Storable(p) && NoPair(p)
    ensures Write(d, OpenPath(root, p), first).Some?
    ensures var d1 := Write(d, OpenPath(root, p), first).value;
            var r := Write(d1, OpenPath(root, DOT + [SLASH] + p), second);
            r.Some? && View(r.value, root) == map[p := second]
  {
    Written(d, root, p, first);
    var d1 := Write(d, OpenPath(root, p), first).value;
    DotAlias(d1, root, p, second);
    Written(d1, root, p, second);
  }
}

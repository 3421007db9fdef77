/** The keys members write about themselves (crates/distlib-core/src/community.rs). A key's bytes are
    written as the characters of the same number. */
module Community {
  import opened Common

  type Byte = b: nat | b < 256

  type Id32 = s: seq<Byte> | |s| == 32 witness seq(32, _ => 0)
  type Id16 = s: seq<Byte> | |s| == 16 witness seq(16, _ => 0)

  datatype Kind = OfRating | OfReview | OfBookmark | OfWish | OfWishComment | OfProbe {
    function Name(): string {
      match this
      case OfRating => "rating"
      case OfReview => "review"
      case OfBookmark => "bookmark"
      case OfWish => "wish"
      case OfWishComment => "wish_comment"
      case OfProbe => "probe"
    }
  }

  function ReadKind(text: string): Option<Kind> {
    if text == "rating" then Some(OfRating)
    else if text == "review" then Some(OfReview)
    else if text == "bookmark" then Some(OfBookmark)
    else if text == "wish" then Some(OfWish)
    else if text == "wish_comment" then Some(OfWishComment)
    else if text == "probe" then Some(OfProbe)
    else None
  }

  lemma KindReads(kind: Kind)
    ensures ReadKind(kind.Name()) == Some(kind) && '/' !in kind.Name()
  {
    match kind
    case OfRating =>
    case OfReview => assert "review" != "rating" by { assert "review"[2] != "rating"[2]; }
    case OfBookmark =>
    case OfWish =>
    case OfWishComment =>
    case OfProbe =>
  }

  datatype CommunityKey =
    | Rating(item: Id32, member: Id32)
    | Review(item: Id32, member: Id32)
    | Bookmark(item: Id32, member: Id32, bookmark: Id16)
    | Wish(wish: Id32, member: Id32)
    | WishComment(wish: Id32, member: Id32)
    | ProbeFailure(custodian: Id32, member: Id32)
  {
    function Kind(): Kind {
      match this
      case Rating(_, _) => OfRating
      case Review(_, _) => OfReview
      case Bookmark(_, _, _) => OfBookmark
      case Wish(_, _) => OfWish
      case WishComment(_, _) => OfWishComment
      case ProbeFailure(_, _) => OfProbe
    }

    /** The ids the key names, in the order it names them. */
    function Ids(): seq<seq<Byte>> {
      match this
      case Rating(item, member) => [item, member]
      case Review(item, member) => [item, member]
      case Bookmark(item, member, bookmark) => [item, member, bookmark]
      case Wish(wish, member) => [wish, member]
      case WishComment(wish, member) => [wish, member]
      case ProbeFailure(custodian, prober) => [custodian, prober]
    }

    /** Those of its ids that must be members' keys. */
    ghost predicate NamesMembers(isMember: Id32 -> bool) {
      isMember(member) && (ProbeFailure? ==> isMember(custodian))
    }
  }

  // ----- Hex -----

  const LOWER := "0123456789abcdef"
  const UPPER := "0123456789ABCDEF"

  function Hex(bytes: seq<Byte>, digits: string): (text: string)
    requires |digits| == 16
    ensures |text| == 2 * |bytes|
  {
    if bytes == [] then ""
    else
      var last := bytes[|bytes| - 1];
      Hex(bytes[..|bytes| - 1], digits) + TwoDigits(last, digits)
  }

  /** What a digit stands for; a letter in either case if `anyCase`. */
  function Digit(c: char, anyCase: bool): Option<nat> {
    if '0' <= c <= '9' then Some(c as nat - '0' as nat)
    else if 'a' <= c <= 'f' then Some(c as nat - 'a' as nat + 10)
    else if anyCase && 'A' <= c <= 'F' then Some(c as nat - 'A' as nat + 10)
    else None
  }

  function Unhex(text: string, anyCase: bool): (bytes: Option<seq<Byte>>)
    ensures bytes.Some? ==> |text| == 2 * |bytes.value|
  {
    if text == "" then Some([])
    else if |text| == 1 then None
    else
      var n := |text| - 2;
      var rest, high, low := Unhex(text[..n], anyCase), Digit(text[n], anyCase), Digit(text[n + 1], anyCase);
      if rest.None? || high.None? || low.None? then None else Some(rest.value + [ByteOf(high.value, low.value)])
  }

  function ByteOf(high: nat, low: nat): Byte {
    (high * 16 + low) % 256
  }

  lemma DigitsRead(n: nat, digits: string, anyCase: bool)
    requires n < 16 && (digits == LOWER || (digits == UPPER && anyCase))
    ensures Digit(digits[n], anyCase) == Some(n) && digits[n] != '/'
  {
  }

  lemma UnhexOneMore(text: string, bytes: seq<Byte>, high: char, low: char, b: Byte, anyCase: bool)
    requires Unhex(text, anyCase) == Some(bytes)
    requires Digit(high, anyCase) == Some(b / 16) && Digit(low, anyCase) == Some(b % 16)
    ensures Unhex(text + [high, low], anyCase) == Some(bytes + [b])
  {
    assert (text + [high, low])[..|text|] == text;
    assert ByteOf(b / 16, b % 16) == b;
  }

  /** The two digits of a byte. */
  function TwoDigits(b: Byte, digits: string): string
    requires |digits| == 16
  {
    [digits[b / 16], digits[b % 16]]
  }

  /** Whether each digit reads as its place among `digits`. */
  ghost predicate Legible(digits: string, anyCase: bool) {
    |digits| == 16 && forall n | 0 <= n < 16 :: Digit(digits[n], anyCase) == Some(n)
  }

  lemma BothLegible(anyCase: bool)
    ensures Legible(LOWER, anyCase) && Legible(UPPER, true)
  {
    forall n | 0 <= n < 16 ensures Digit(LOWER[n], anyCase) == Some(n) && Digit(UPPER[n], true) == Some(n) {
      DigitsRead(n, LOWER, anyCase);
      DigitsRead(n, UPPER, true);
    }
  }

  lemma ByteReads(text: string, bytes: seq<Byte>, b: Byte, digits: string, anyCase: bool)
    requires Legible(digits, anyCase) && Unhex(text, anyCase) == Some(bytes)
    ensures Unhex(text + TwoDigits(b, digits), anyCase) == Some(bytes + [b])
  {
    UnhexOneMore(text, bytes, digits[b / 16], digits[b % 16], b, anyCase);
  }

  lemma HexOneMore(bytes: seq<Byte>, b: Byte, digits: string)
    requires |digits| == 16
    ensures Hex(bytes + [b], digits) == Hex(bytes, digits) + TwoDigits(b, digits)
  {
    assert (bytes + [b])[..|bytes|] == bytes;
  }

  lemma {:induction false} LegibleHexReads(bytes: seq<Byte>, digits: string, anyCase: bool)
    requires Legible(digits, anyCase)
    ensures Unhex(Hex(bytes, digits), anyCase) == Some(bytes)
  {
    if bytes != [] {
      var rest, b := bytes[..|bytes| - 1], bytes[|bytes| - 1];
      assert bytes == rest + [b];
      LegibleHexReads(rest, digits, anyCase);
      HexOneMore(rest, b, digits);
      ByteReads(Hex(rest, digits), rest, b, digits, anyCase);
    }
  }

  /** What is written in hex reads back: in lower case always, in capitals where either case does. */
  lemma HexReads(bytes: seq<Byte>, digits: string, anyCase: bool)
    requires digits == LOWER || (digits == UPPER && anyCase)
    ensures Unhex(Hex(bytes, digits), anyCase) == Some(bytes)
  {
    BothLegible(anyCase);
    LegibleHexReads(bytes, digits, anyCase);
  }

  lemma {:induction false} HexHasNoSlash(bytes: seq<Byte>, digits: string)
    requires digits == LOWER || digits == UPPER
    ensures '/' !in Hex(bytes, digits)
  {
    if bytes != [] {
      var n := |bytes| - 1;
      HexHasNoSlash(bytes[..n], digits);
      DigitsRead(bytes[n] / 16, digits, true);
      DigitsRead(bytes[n] % 16, digits, true);
    }
  }

  /** A digit in lower case, by its place in the alphabet. */
  function DigitOf(n: nat): char
    requires n < 16
  {
    if n < 10 then '0' + n as char else 'a' + (n - 10) as char
  }

  /** Hex is two digits a byte, the high one first. */
  lemma {:induction false} HexIs(bytes: seq<Byte>, i: nat)
    requires i < |bytes|
    ensures Hex(bytes, LOWER)[2 * i] == DigitOf(bytes[i] / 16)
    ensures Hex(bytes, LOWER)[2 * i + 1] == DigitOf(bytes[i] % 16)
  {
    var n := |bytes| - 1;
    if i < n {
      HexIs(bytes[..n], i);
    } else {
      assert forall d | 0 <= d < 16 :: LOWER[d] == DigitOf(d);
    }
  }

  // ----- Reading and writing -----

  /** Where a key's first segments end and the rest begins. */
  function Split(text: string): (parts: seq<string>)
    ensures parts != []
  {
    if text == "" then [""]
    else
      var parts := Split(text[1..]);
      if text[0] == '/' then [""] + parts else [[text[0]] + parts[0]] + parts[1..]
  }

  /** The ids as they follow the kind. */
  function Segments(ids: seq<seq<Byte>>): string {
    if ids == [] then "" else "/" + Hex(ids[0], LOWER) + Segments(ids[1..])
  }

  /** The text of a key: its kind's name and then a slash and lowercase hex for each id. */
  function Encode(key: CommunityKey): string {
    key.Kind().Name() + Segments(key.Ids())
  }

  /** How a member's id is read: any way that reads what is written. */
  type ReadMember = string -> Option<Id32>

  ghost predicate ReadsWhatIsWritten(read: ReadMember, isMember: Id32 -> bool) {
    forall id: Id32 | isMember(id) :: read(Hex(id, LOWER)) == Some(id)
  }

  function ReadItem(text: string): Option<Id32> {
    var bytes := Unhex(text, true);
    if bytes.Some? && |bytes.value| == 32 then Some(bytes.value) else None
  }

  function ReadWish(text: string): Option<Id32> {
    var bytes := Unhex(text, false);
    if bytes.Some? && |bytes.value| == 32 then Some(bytes.value) else None
  }

  function ReadBookmark(text: string): Option<Id16> {
    var bytes := Unhex(text, false);
    if bytes.Some? && |bytes.value| == 16 then Some(bytes.value) else None
  }

  /** What `read` makes of the part at `n`, if the text has that many. */
  function Segment<T>(parts: seq<string>, n: nat, read: string -> Option<T>): Option<T> {
    if n < |parts| then read(parts[n]) else None
  }

  /** Reads a key's segments, in whatever spelling they are, and leaves any further ones. */
  function ReadParts(parts: seq<string>, read: ReadMember): Option<CommunityKey>
    requires parts != []
  {
    var member := Segment(parts, 2, read);
    if member.None? then None
    else match ReadKind(parts[0])
      case None => None
      case Some(OfRating) =>
        var item := Segment(parts, 1, ReadItem);
        if item.None? then None else Some(Rating(item.value, member.value))
      case Some(OfReview) =>
        var item := Segment(parts, 1, ReadItem);
        if item.None? then None else Some(Review(item.value, member.value))
      case Some(OfBookmark) =>
        var item, bookmark := Segment(parts, 1, ReadItem), Segment(parts, 3, ReadBookmark);
        if item.None? || bookmark.None? then None else Some(Bookmark(item.value, member.value, bookmark.value))
      case Some(OfWish) =>
        var wish := Segment(parts, 1, ReadWish);
        if wish.None? then None else Some(Wish(wish.value, member.value))
      case Some(OfWishComment) =>
        var wish := Segment(parts, 1, ReadWish);
        if wish.None? then None else Some(WishComment(wish.value, member.value))
      case Some(OfProbe) =>
        var custodian := Segment(parts, 1, read);
        if custodian.None? then None else Some(ProbeFailure(custodian.value, member.value))
  }

  /** Reads a key back, only in the one spelling `Encode` writes. */
  function Parse(text: string, read: ReadMember): Option<CommunityKey> {
    var key := ReadParts(Split(text), read);
    if key.Some? && Encode(key.value) == text then key else None
  }

  lemma {:induction false} SplitFirst(first: string, rest: string)
    requires '/' !in first
    ensures Split(first) == [first]
    ensures Split(first + "/" + rest) == [first] + Split(rest)
  {
    if first == "" {
      assert first + "/" + rest == "/" + rest;
      assert ("/" + rest)[1..] == rest;
    } else {
      assert (first + "/" + rest)[1..] == first[1..] + "/" + rest;
      SplitFirst(first[1..], rest);
      assert [first[0]] + first[1..] == first;
    }
  }

  function Spelled(ids: seq<seq<Byte>>): seq<string> {
    seq(|ids|, i requires 0 <= i < |ids| => Hex(ids[i], LOWER))
  }

  lemma {:induction false} SplitIds(first: string, ids: seq<seq<Byte>>)
    requires '/' !in first
    ensures Split(first + Segments(ids)) == [first] + Spelled(ids)
    decreases |ids|
  {
    if ids == [] {
      assert first + Segments(ids) == first;
      SplitFirst(first, "");
    } else {
      var next, rest := Hex(ids[0], LOWER), ids[1..];
      HexHasNoSlash(ids[0], LOWER);
      Regroup(first, next, Segments(rest));
      SplitFirst(first, next + Segments(rest));
      SplitIds(next, rest);
      SpelledFrom(ids);
    }
  }

  lemma Regroup(a: string, b: string, c: string)
    ensures a + ("/" + b + c) == a + "/" + (b + c) == a + "/" + b + c
  {
  }

  lemma SpelledFrom(ids: seq<seq<Byte>>)
    requires ids != []
    ensures Spelled(ids) == [Hex(ids[0], LOWER)] + Spelled(ids[1..])
  {
  }

  lemma PartsRead(key: CommunityKey, parts: seq<string>, read: ReadMember)
    requires |parts| > 2 && ReadKind(parts[0]) == Some(key.Kind())
    requires var first := key.Ids()[0];
      ReadItem(parts[1]) == Some(first) == ReadWish(parts[1]) && (key.ProbeFailure? ==> read(parts[1]) == Some(first))
    requires read(parts[2]) == Some(key.member)
    requires key.Bookmark? ==> |parts| > 3 && ReadBookmark(parts[3]) == Some(key.bookmark)
    ensures ReadParts(parts, read) == Some(key)
  {
  }

  lemma IdReads(id: Id32)
    ensures ReadItem(Hex(id, LOWER)) == Some(id) == ReadWish(Hex(id, LOWER))
  {
    HexReads(id, LOWER, true);
    HexReads(id, LOWER, false);
  }

  lemma SpelledOut(key: CommunityKey)
    ensures var parts := Split(Encode(key));
      && |parts| == 1 + |key.Ids()| && parts[0] == key.Kind().Name()
      && parts[1] == Hex(key.Ids()[0], LOWER) && parts[2] == Hex(key.member, LOWER)
      && (key.Bookmark? ==> parts[3] == Hex(key.bookmark, LOWER))
  {
    KindReads(key.Kind());
    SplitIds(key.Kind().Name(), key.Ids());
  }

  /** What is written reads back. */
  lemma RoundTrip(key: CommunityKey, read: ReadMember, isMember: Id32 -> bool)
    requires ReadsWhatIsWritten(read, isMember) && key.NamesMembers(isMember)
    ensures Parse(Encode(key), read) == Some(key)
  {
    SpelledOut(key);
    KindReads(key.Kind());
    IdReads(key.Ids()[0]);
    if key.Bookmark? {
      HexReads(key.bookmark, LOWER, false);
    }
    PartsRead(key, Split(Encode(key)), read);
  }

  /** What each kind of key is about, by the word it starts with. */
  function AboutWhat(key: CommunityKey): (string, seq<Byte>) {
    match key
    case Rating(item, _) => ("rating", item)
    case Review(item, _) => ("review", item)
    case Bookmark(item, _, _) => ("bookmark", item)
    case Wish(wish, _) => ("wish", wish)
    case WishComment(wish, _) => ("wish_comment", wish)
    case ProbeFailure(custodian, _) => ("probe", custodian)
  }

  /** How a key is written: that word, what it is about, whose it is, and for a bookmark which. */
  lemma WrittenAs(key: CommunityKey)
    ensures var (word, about) := AboutWhat(key);
      Encode(key) == word + "/" + Hex(about, LOWER) + "/" + Hex(key.member, LOWER) +
        if key.Bookmark? then "/" + Hex(key.bookmark, LOWER) else ""
  {
    var word, about := key.Kind().Name(), key.Ids()[0];
    if key.Bookmark? {
      InThree(word, about, key.member, key.bookmark);
    } else {
      InTwo(word, about, key.member);
    }
  }

  lemma InTwo(word: string, a: seq<Byte>, b: seq<Byte>)
    ensures word + Segments([a, b]) == word + "/" + Hex(a, LOWER) + "/" + Hex(b, LOWER)
  {
    var none: seq<seq<Byte>> := [];
    assert [a, b][1..] == [b] && [b][1..] == none;
    assert Segments(none) == "" && Segments([b]) == "/" + Hex(b, LOWER) + "";
    Regroup(word, Hex(a, LOWER), "/" + Hex(b, LOWER));
  }

  lemma InThree(word: string, a: seq<Byte>, b: seq<Byte>, c: seq<Byte>)
    ensures word + Segments([a, b, c]) ==
      word + "/" + Hex(a, LOWER) + "/" + Hex(b, LOWER) + "/" + Hex(c, LOWER)
  {
    assert [a, b, c][1..] == [b, c];
    InTwo("", b, c);
    assert "" + Segments([b, c]) == Segments([b, c]);
    Regroup(word, Hex(a, LOWER), Segments([b, c]));
    Join(word + "/" + Hex(a, LOWER), Hex(b, LOWER), Hex(c, LOWER));
  }

  lemma Join(start: string, a: string, b: string)
    ensures start + ("" + "/" + a + "/" + b) == start + "/" + a + "/" + b
  {
  }

  lemma WrittenReads(key: CommunityKey, read: ReadMember)
    requires read(Hex(key.member, LOWER)) == Some(key.member)
    requires key.ProbeFailure? ==> read(Hex(key.custodian, LOWER)) == Some(key.custodian)
    ensures Parse(Encode(key), read) == Some(key)
  {
    SpelledOut(key);
    KindReads(key.Kind());
    IdReads(key.Ids()[0]);
    if key.Bookmark? {
      HexReads(key.bookmark, LOWER, false);
    }
    PartsRead(key, Split(Encode(key)), read);
  }

  lemma MembersReadAsWritten(key: CommunityKey, read: ReadMember)
    requires ReadParts(Split(Encode(key)), read) == Some(key)
    ensures read(Hex(key.member, LOWER)) == Some(key.member)
    ensures key.ProbeFailure? ==> read(Hex(key.custodian, LOWER)) == Some(key.custodian)
  {
    SpelledOut(key);
    KindReads(key.Kind());
    NamesWhatItReads(Split(Encode(key)), read, key);
  }

  lemma NamesWhatItReads(parts: seq<string>, read: ReadMember, key: CommunityKey)
    requires |parts| > 2 && ReadParts(parts, read) == Some(key)
    ensures read(parts[2]) == Some(key.member) && (key.ProbeFailure? ==> read(parts[1]) == Some(key.custodian))
  {
  }

  /** A text reads as a key exactly when it is that key written, and the members it names read as written. */
  lemma ReadsExactlyWhatIsWritten(text: string, key: CommunityKey, read: ReadMember)
    ensures Parse(text, read) == Some(key) <==>
      && text == Encode(key) && read(Hex(key.member, LOWER)) == Some(key.member)
      && (key.ProbeFailure? ==> read(Hex(key.custodian, LOWER)) == Some(key.custodian))
  {
    if Parse(text, read) == Some(key) {
      MembersReadAsWritten(key, read);
    } else if text == Encode(key) && read(Hex(key.member, LOWER)) == Some(key.member) {
      if key.ProbeFailure? ==> read(Hex(key.custodian, LOWER)) == Some(key.custodian) {
        WrittenReads(key, read);
      }
    }
  }

  /** What reads is what is written: each key has one spelling. */
  lemma OneSpelling(a: string, b: string, read: ReadMember)
    requires Parse(a, read).Some? && Parse(a, read) == Parse(b, read)
    ensures a == b == Encode(Parse(a, read).value)
  {
  }

  lemma HexIsOneToOne(a: seq<Byte>, b: seq<Byte>)
    requires Hex(a, LOWER) == Hex(b, LOWER)
    ensures a == b
  {
    HexReads(a, LOWER, false);
    HexReads(b, LOWER, false);
  }

  lemma EncodeIsOneToOne(a: CommunityKey, b: CommunityKey)
    requires Encode(a) == Encode(b)
    ensures a == b
  {
    SpelledOut(a);
    SpelledOut(b);
    KindReads(a.Kind());
    KindReads(b.Kind());
    HexIsOneToOne(a.Ids()[0], b.Ids()[0]);
    HexIsOneToOne(a.member, b.member);
    if a.Bookmark? {
      HexIsOneToOne(a.bookmark, b.bookmark);
    }
  }

  /** A key is its kind, its first id and the rest, and as long as its kind makes it. */
  lemma Layout(key: CommunityKey)
    ensures Encode(key) == key.Kind().Name() + "/" + Hex(key.Ids()[0], LOWER) + Segments(key.Ids()[1..])
    ensures |Encode(key)| == |key.Kind().Name()| + (if key.Bookmark? then 163 else 130)
    ensures Segments(key.Ids()[1..])[0] == '/'
  {
    var ids := key.Ids();
    Regroup(key.Kind().Name(), Hex(ids[0], LOWER), Segments(ids[1..]));
    SegmentsAre(ids);
    SegmentsAre(ids[1..]);
    if key.Bookmark? {
      SegmentsAre(ids[1..][1..]);
    }
  }

  lemma SegmentsAre(ids: seq<seq<Byte>>)
    requires ids != []
    ensures Segments(ids)[0] == '/' && |Segments(ids)| == 1 + 2 * |ids[0]| + |Segments(ids[1..])|
  {
  }

  lemma StartsWithItsKind(key: CommunityKey)
    ensures key.Kind().Name() + "/" <= Encode(key)
    ensures |Encode(key)| == |key.Kind().Name()| + (if key.Kind().OfBookmark? then 163 else 130)
  {
    Layout(key);
  }

  /** Two texts that agree as far as the first slash of either have the same kind before it. */
  lemma SameKind(a: Kind, b: Kind, text: string)
    requires a.Name() + "/" <= text && b.Name() + "/" <= text
    ensures a == b
  {
    KindReads(a);
    KindReads(b);
    var i, j := |a.Name()|, |b.Name()|;
    assert text[i] == '/' && text[j] == '/';
    assert forall n | 0 <= n < i :: text[n] == a.Name()[n];
    assert forall n | 0 <= n < j :: text[n] == b.Name()[n];
    assert i == j;
    assert text[..i] == a.Name() && text[..j] == b.Name();
  }

  /** No key, of any kind, is a proper prefix of another. */
  lemma PrefixFree(a: CommunityKey, b: CommunityKey)
    requires Encode(a) <= Encode(b)
    ensures a == b
  {
    StartsWithItsKind(a);
    StartsWithItsKind(b);
    assert a.Kind().Name() + "/" <= Encode(b);
    SameKind(a.Kind(), b.Kind(), Encode(b));
    assert Encode(a) == Encode(b);
    EncodeIsOneToOne(a, b);
  }

  /** What the keys of one kind about one id start with. */
  function PrefixOf(kind: Kind, id: Id32): string {
    kind.Name() + "/" + Hex(id, LOWER) + "/"
  }

  /** Reading by that prefix finds the keys of that kind about that id, and no others. */
  lemma PrefixFindsExactly(kind: Kind, id: Id32, key: CommunityKey)
    ensures PrefixOf(kind, id) <= Encode(key) <==> key.Kind() == kind && key.Ids()[0] == id
  {
    if key.Kind() == kind && key.Ids()[0] == id {
      StartsWithItsPrefix(key);
    }
    if PrefixOf(kind, id) <= Encode(key) {
      FoundByItsPrefix(kind, id, key);
    }
  }

  lemma StartsWithItsPrefix(key: CommunityKey)
    ensures PrefixOf(key.Kind(), key.Ids()[0]) <= Encode(key)
  {
    Layout(key);
    var start, rest := key.Kind().Name() + "/" + Hex(key.Ids()[0], LOWER), Segments(key.Ids()[1..]);
    assert rest == "/" + rest[1..];
    Regroup(start, "", rest[1..]);
    assert "/" + "" + rest[1..] == rest && start + "/" + "" == start + "/";
  }

  lemma FoundByItsPrefix(kind: Kind, id: Id32, key: CommunityKey)
    requires PrefixOf(kind, id) <= Encode(key)
    ensures key.Kind() == kind && key.Ids()[0] == id
  {
    Layout(key);
    var text, name := Encode(key), kind.Name() + "/";
    assert name <= PrefixOf(kind, id);
    SameKind(kind, key.Kind(), text);
    SameMiddle(text, name, Hex(id, LOWER), Hex(key.Ids()[0], LOWER));
    HexIsOneToOne(id, key.Ids()[0]);
  }

  lemma SameMiddle(text: string, start: string, a: string, b: string)
    requires start + a <= text && start + b <= text && |a| == |b|
    ensures a == b
  {
    assert text[|start|..|start| + |a|] == a;
    assert text[|start|..|start| + |a|] == b;
  }

  /** Why the check that a key encodes back to itself is there: without it, an item's id in capitals
      would read as a second key for the same member and item. */
  lemma CapitalsWouldReadToo(item: Id32, member: Id32, read: ReadMember)
    requires read(Hex(member, LOWER)) == Some(member)
    ensures ReadParts(Split("rating" + "/" + (Hex(item, UPPER) + "/" + Hex(member, LOWER))), read) ==
      Some(Rating(item, member))
  {
    var first, second := Hex(item, UPPER), Hex(member, LOWER);
    HexHasNoSlash(item, UPPER);
    HexHasNoSlash(member, LOWER);
    SplitInThree("rating", first, second);
    HexReads(item, UPPER, true);
    assert ReadItem(first) == Some(item);
    assert ReadKind("rating") == Some(OfRating);
  }

  lemma SplitInThree(a: string, b: string, c: string)
    requires '/' !in a && '/' !in b && '/' !in c
    ensures Split(a + "/" + (b + "/" + c)) == [a, b, c]
  {
    SplitFirst(a, b + "/" + c);
    SplitFirst(b, c);
    SplitFirst(c, "");
  }
}

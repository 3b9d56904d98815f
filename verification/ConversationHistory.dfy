/**
 The private conversation journal: every write evicts by count and by encoded size, every read forgets by age.
 The JSON length of an entry is an arbitrary function of the entry; replacing the file is atomic.
 */
module ConversationHistory {
  import opened Wrappers
  import Note = ContactNote
  import Text

  const RETENTION: nat := 14 * 24 * 3600
  const MAX_BYTES: nat := 8 * 1024 * 1024
  const MAX_ENTRIES: nat := 1000
  const MAX_TEXT: nat := 16384
  const MAX_ID: nat := 1024

  /** The brackets and the key around the list of entries. */
  const ENVELOPE: nat := 14

  datatype Entry = Entry(
    inbox: string,
    address: Option<string>,
    id: string,
    received: nat,
    text: string,
    reply: Option<string>,
    group: Option<string>,
    operator: bool)

  type Size = Entry -> nat

  function Total(es: seq<Entry>, size: Size): nat {
    if es == [] then 0 else size(es[0]) + 1 + Total(es[1..], size)
  }

  /** Length of the encoded journal: the entries with commas between them. */
  function Encoded(es: seq<Entry>, size: Size): nat {
    if es == [] then ENVELOPE else ENVELOPE + Total(es, size) - 1
  }

  // ---------------------------------------------------------------- eviction

  function Capped(es: seq<Entry>): seq<Entry> {
    if |es| > MAX_ENTRIES then es[|es| - MAX_ENTRIES..] else es
  }

  /** Oldest entries go until the rest is below the limit. */
  function DropOldest(es: seq<Entry>, size: Size): seq<Entry> {
    if es == [] || Encoded(es, size) < MAX_BYTES then es else DropOldest(es[1..], size)
  }

  function Kept(es: seq<Entry>, size: Size): seq<Entry> {
    var c := Capped(es);
    if Encoded(c, size) > MAX_BYTES then DropOldest(c[1..], size) else c
  }

  lemma {:induction false} DropOldestDropsFewest(es: seq<Entry>, size: Size)
    ensures var r := DropOldest(es, size); var k := |es| - |r|;
      && |r| <= |es| && r == es[k..] && (r == [] || Encoded(r, size) < MAX_BYTES)
      && forall j :: 0 <= j < k ==> Encoded(es[j..], size) >= MAX_BYTES
  {
    if es != [] && Encoded(es, size) >= MAX_BYTES {
      DropOldestDropsFewest(es[1..], size);
      var r := DropOldest(es, size);
      var k := |es| - |r|;
      assert es[1..][k - 1..] == es[k..];
      forall j | 0 <= j < k
        ensures Encoded(es[j..], size) >= MAX_BYTES
      {
        if j > 0 {
          assert es[j..] == es[1..][j - 1..];
        } else {
          assert es[0..] == es;
        }
      }
    }
  }

  /** An eviction by size: at least the oldest entry goes, and with one entry more the limit would be reached. */
  lemma EvictionKeepsNewest(c: seq<Entry>, size: Size)
    requires Encoded(c, size) > MAX_BYTES
    ensures var r := DropOldest(c[1..], size); var k := |c| - |r|;
      && 0 < k <= |c| && r == c[k..] && Encoded(r, size) <= MAX_BYTES && Encoded(c[k - 1..], size) >= MAX_BYTES
  {
    hide Encoded, DropOldest;
    EmptyEncodes(size);
    if c == [] {
      assert false;
    }
    DropOldestDropsFewest(c[1..], size);
    var r := DropOldest(c[1..], size);
    var k := |c| - |r|;
    SuffixOfSuffix(c, 1, k - 1);
    if k > 1 {
      SuffixOfSuffix(c, 1, k - 2);
      assert Encoded(c[1..][k - 2..], size) >= MAX_BYTES;
    } else {
      assert c[0..] == c;
    }
  }

  /**
   Every write keeps the newest entries: at most a thousand, at most eight MiB encoded; and if the size forces an
   eviction, keeping one entry more would still have reached the limit.
   */
  lemma WritesKeepTheNewest(es: seq<Entry>, size: Size)
    ensures var r := Kept(es, size); var k := |es| - |r|;
      && |r| <= |es| && r == es[k..] && |r| <= MAX_ENTRIES && Encoded(r, size) <= MAX_BYTES
      && (k > 0 && |r| < MAX_ENTRIES ==> Encoded(es[k - 1..], size) >= MAX_BYTES)
      && (|es| <= MAX_ENTRIES && Encoded(es, size) <= MAX_BYTES ==> r == es)
  {
    hide Encoded, DropOldest;
    var c := Capped(es);
    var d := |es| - |c|;
    assert c == es[d..];
    if Encoded(c, size) > MAX_BYTES {
      EvictionKeepsNewest(c, size);
      var k := |c| - |DropOldest(c[1..], size)|;
      SuffixOfSuffix(es, d, k);
      SuffixOfSuffix(es, d, k - 1);
    }
  }

  lemma SuffixOfSuffix(es: seq<Entry>, i: nat, j: nat)
    requires i + j <= |es|
    ensures es[i..][j..] == es[i + j..]
  {
  }

  lemma EmptyEncodes(size: Size)
    ensures Encoded([], size) == ENVELOPE
  {
  }

  // ---------------------------------------------------------------- the operations

  function Recent(es: seq<Entry>, now: nat): seq<Entry> {
    if es == [] then []
    else
      var n := |es| - 1;
      Recent(es[..n], now) + if es[n].received + RETENTION >= now then [es[n]] else []
  }

  function Others(es: seq<Entry>, inbox: string): seq<Entry> {
    if es == [] then []
    else
      var n := |es| - 1;
      Others(es[..n], inbox) + if es[n].inbox != inbox && !es[n].operator then [es[n]] else []
  }

  datatype Key = Key(inbox: string, id: string, group: Option<string>, operator: bool)

  function KeyOf(e: Entry): Key { Key(e.inbox, e.id, e.group, e.operator) }

  function Find(es: seq<Entry>, key: Key): (r: Option<nat>)
    ensures r.Some? ==>
              r.value < |es| && KeyOf(es[r.value]) == key && forall i :: 0 <= i < r.value ==> KeyOf(es[i]) != key
    ensures r.None? ==> forall i :: 0 <= i < |es| ==> KeyOf(es[i]) != key
  {
    if es == [] then None
    else if KeyOf(es[0]) == key then Some(0)
    else
      match Find(es[1..], key)
      case None => None
      case Some(i) => Some(i + 1)
  }

  /** A request to record: a message, or the reply to one. */
  datatype Message = Message(inbox: string, address: Option<string>, id: string, text: string, reply: Option<string>,
                             group: Option<string>, operator: bool)

  predicate TooLarge(m: Message) {
    |m.text| > MAX_TEXT || (m.reply.Some? && |m.reply.value| > MAX_TEXT) || |m.id| > MAX_ID
  }

  function MessageKey(m: Message, inbox: string): Key { Key(inbox, m.id, m.group, m.operator) }

  predicate IsWallet(s: string) {
    |s| == 42 && s[..2] == "0x" && forall i :: 2 <= i < 42 ==> Note.IsHex(s[i])
  }

  /** Only a wallet address is stored, in lower case. */
  function StoredAddress(address: Option<string>): Option<string> {
    if address.Some? && IsWallet(address.value) then Some(Text.Lower(address.value)) else None
  }

  function NewEntry(m: Message, inbox: string, now: nat): Entry {
    Entry(inbox, StoredAddress(m.address), m.id, now, m.text, None, m.group, m.operator)
  }

  /** The journal after a message or reply, before eviction; `None`: a late reply, which changes nothing. */
  function Recorded(es: seq<Entry>, m: Message, inbox: string, now: nat): Option<seq<Entry>> {
    match Find(es, MessageKey(m, inbox))
    case Some(i) => Some(if m.reply.Some? then es[i := es[i].(reply := m.reply)] else es)
    case None => if m.reply.Some? then None else Some(es + [NewEntry(m, inbox, now)])
  }

  datatype Operation = Prune | Record(message: Message) | Forget(inbox: string)

  /** The stored journal after one operation at a time; invalid requests leave it alone. */
  function Next(es: seq<Entry>, size: Size, op: Operation, now: nat): seq<Entry> {
    var read := Recent(es, now);
    match op
    case Prune => Kept(read, size)
    case Forget(raw) =>
      (match Note.NormalizeInboxId(raw)
       case None => es
       case Some(inbox) => Kept(Others(read, inbox), size))
    case Record(m) =>
      match Note.NormalizeInboxId(m.inbox)
      case None => es
      case Some(inbox) =>
        if TooLarge(m) then es
        else
          match Recorded(read, m, inbox, now)
          case None => es
          case Some(journal) => Kept(journal, size)
  }

  datatype Timed = Timed(operation: Operation, now: nat)

  function Run(es: seq<Entry>, size: Size, ops: seq<Timed>): seq<Entry> {
    if ops == [] then es
    else
      var n := |ops| - 1;
      Next(Run(es, size, ops[..n]), size, ops[n].operation, ops[n].now)
  }

  // ---------------------------------------------------------------- keys stay unique, and sizes bounded

  ghost predicate UniqueKeys(es: seq<Entry>) {
    forall i, j :: 0 <= i < j < |es| ==> KeyOf(es[i]) != KeyOf(es[j])
  }

  /** What a read accepts and every write leaves behind. */
  ghost predicate Stored(es: seq<Entry>, size: Size) {
    UniqueKeys(es) && |es| <= MAX_ENTRIES && Encoded(es, size) <= MAX_BYTES
  }

  lemma UniqueParts(es: seq<Entry>)
    requires es != []
    ensures UniqueKeys(es) <==>
            UniqueKeys(es[..|es| - 1]) && forall e :: e in es[..|es| - 1] ==> KeyOf(e) != KeyOf(es[|es| - 1])
  {
    var n := |es| - 1;
    if UniqueKeys(es[..n]) && forall e :: e in es[..n] ==> KeyOf(e) != KeyOf(es[n]) {
      forall i, j | 0 <= i < j < |es|
        ensures KeyOf(es[i]) != KeyOf(es[j])
      {
        assert es[..n][i] in es[..n];
        assert j < n ==> es[..n][j] == es[j];
      }
    }
  }

  lemma {:induction false} RecentMembers(es: seq<Entry>, now: nat)
    ensures forall e :: e in Recent(es, now) <==> e in es && e.received + RETENTION >= now
  {
    if es != [] {
      var n := |es| - 1;
      RecentMembers(es[..n], now);
      assert forall e :: e in es <==> e in es[..n] || e == es[n];
    }
  }

  lemma {:induction false} RecentKeeps(es: seq<Entry>, now: nat)
    ensures forall e :: e in Recent(es, now) <==> e in es && e.received + RETENTION >= now
    ensures UniqueKeys(es) ==> UniqueKeys(Recent(es, now))
  {
    RecentMembers(es, now);
    if es != [] && UniqueKeys(es) {
      hide UniqueKeys;
      var n := |es| - 1;
      UniqueParts(es);
      RecentKeeps(es[..n], now);
      KeepsUnique(Recent(es[..n], now), es[n], es[n].received + RETENTION >= now);
    } else {
      assert es == [] ==> Recent(es, now) == [];
    }
  }

  lemma KeepsUnique(es: seq<Entry>, e: Entry, more: bool)
    requires UniqueKeys(es) && forall d :: d in es ==> KeyOf(d) != KeyOf(e)
    ensures UniqueKeys(es + if more then [e] else [])
  {
    if more {
      assert (es + [e])[..|es|] == es;
      UniqueParts(es + [e]);
    } else {
      assert es + [] == es;
    }
  }

  lemma {:induction false} OthersMembers(es: seq<Entry>, inbox: string)
    ensures forall e :: e in Others(es, inbox) <==> e in es && e.inbox != inbox && !e.operator
  {
    if es != [] {
      var n := |es| - 1;
      OthersMembers(es[..n], inbox);
      assert forall e :: e in es <==> e in es[..n] || e == es[n];
    }
  }

  lemma {:induction false} OthersKeeps(es: seq<Entry>, inbox: string)
    ensures forall e :: e in Others(es, inbox) <==> e in es && e.inbox != inbox && !e.operator
    ensures UniqueKeys(es) ==> UniqueKeys(Others(es, inbox))
  {
    OthersMembers(es, inbox);
    if es != [] && UniqueKeys(es) {
      hide UniqueKeys;
      var n := |es| - 1;
      UniqueParts(es);
      OthersKeeps(es[..n], inbox);
      KeepsUnique(Others(es[..n], inbox), es[n], es[n].inbox != inbox && !es[n].operator);
    } else {
      assert es == [] ==> Others(es, inbox) == [];
    }
  }

  lemma RecordedKeepsUnique(es: seq<Entry>, m: Message, inbox: string, now: nat)
    requires UniqueKeys(es) && Recorded(es, m, inbox, now).Some?
    ensures UniqueKeys(Recorded(es, m, inbox, now).value)
  {
  }

  lemma KeptIsStored(es: seq<Entry>, size: Size)
    requires UniqueKeys(es)
    ensures Stored(Kept(es, size), size)
  {
    hide Kept;
    WritesKeepTheNewest(es, size);
  }

  /** Over any run the journal stays readable: keys unique, within both limits. */
  lemma NextKeepsStored(es: seq<Entry>, size: Size, op: Operation, now: nat)
    requires Stored(es, size)
    ensures Stored(Next(es, size, op, now), size)
  {
    hide Kept, Others, Recent, Recorded, Stored;
    assert UniqueKeys(es) by {
      StoredIsUnique(es, size);
    }
    RecentKeeps(es, now);
    var read := Recent(es, now);
    match op
    case Prune => KeptIsStored(read, size);
    case Forget(raw) =>
      if Note.NormalizeInboxId(raw).Some? {
        var inbox := Note.NormalizeInboxId(raw).value;
        OthersKeeps(read, inbox);
        KeptIsStored(Others(read, inbox), size);
      }
    case Record(m) =>
      if Note.NormalizeInboxId(m.inbox).Some? && Recorded(read, m, Note.NormalizeInboxId(m.inbox).value, now).Some? {
        var inbox := Note.NormalizeInboxId(m.inbox).value;
        RecordedKeepsUnique(read, m, inbox, now);
        KeptIsStored(Recorded(read, m, inbox, now).value, size);
      }
  }

  lemma StoredIsUnique(es: seq<Entry>, size: Size)
    requires Stored(es, size)
    ensures UniqueKeys(es)
  {
  }

  lemma {:induction false} RunKeepsStored(es: seq<Entry>, size: Size, ops: seq<Timed>)
    requires Stored(es, size)
    ensures Stored(Run(es, size, ops), size)
  {
    hide Next, Stored;
    if ops != [] {
      var n := |ops| - 1;
      RunKeepsStored(es, size, ops[..n]);
      NextKeepsStored(Run(es, size, ops[..n]), size, ops[n].operation, ops[n].now);
    }
  }

  // ---------------------------------------------------------------- forgetting lasts

  ghost predicate Absent(es: seq<Entry>, inbox: string) { forall e :: e in es ==> e.inbox != inbox }

  /** A new message of this inbox, as opposed to a reply. */
  predicate IsNewMessage(op: Operation, inbox: string) {
    op.Record? && Note.NormalizeInboxId(op.message.inbox) == Some(inbox) && op.message.reply.None?
  }

  lemma KeptMembers(es: seq<Entry>, size: Size)
    ensures forall e :: e in Kept(es, size) ==> e in es
  {
    WritesKeepTheNewest(es, size);
  }

  lemma ForgetRemoves(es: seq<Entry>, size: Size, raw: string, now: nat)
    requires Note.NormalizeInboxId(raw).Some?
    ensures var t := Next(es, size, Forget(raw), now);
      && Absent(t, Note.NormalizeInboxId(raw).value)
      && (forall e :: e in t ==> !e.operator)
  {
    hide Kept, Others, Recent;
    var inbox := Note.NormalizeInboxId(raw).value;
    OthersKeeps(Recent(es, now), inbox);
    KeptMembers(Others(Recent(es, now), inbox), size);
  }

  lemma {:induction false} TotalOfBoth(a: seq<Entry>, b: seq<Entry>, size: Size)
    ensures Total(a + b, size) == Total(a, size) + Total(b, size)
  {
    if a == [] {
      assert a + b == b;
    } else {
      TotalOfBoth(a[1..], b, size);
      assert (a + b)[1..] == a[1..] + b;
    }
  }

  lemma TotalOfLast(es: seq<Entry>, size: Size)
    requires es != []
    ensures Total(es, size) == Total(es[..|es| - 1], size) + size(es[|es| - 1]) + 1
  {
    var n := |es| - 1;
    TotalOfBoth(es[..n], [es[n]], size);
    assert es == es[..n] + [es[n]];
  }

  lemma {:induction false} RecentIsSmaller(es: seq<Entry>, now: nat, size: Size)
    ensures Total(Recent(es, now), size) <= Total(es, size) && |Recent(es, now)| <= |es|
  {
    hide Total;
    if es != [] {
      var n := |es| - 1;
      RecentIsSmaller(es[..n], now, size);
      TotalOfLast(es, size);
      if es[n].received + RETENTION >= now {
        TotalOfLast(Recent(es, now), size);
        assert Recent(es, now)[..|Recent(es, now)| - 1] == Recent(es[..n], now);
      } else {
        assert Recent(es, now) == Recent(es[..n], now);
      }
    }
  }

  lemma {:induction false} OthersAreSmaller(es: seq<Entry>, inbox: string, size: Size)
    ensures Total(Others(es, inbox), size) <= Total(es, size) && |Others(es, inbox)| <= |es|
  {
    hide Total;
    if es != [] {
      var n := |es| - 1;
      OthersAreSmaller(es[..n], inbox, size);
      TotalOfLast(es, size);
      if es[n].inbox != inbox && !es[n].operator {
        TotalOfLast(Others(es, inbox), size);
        assert Others(es, inbox)[..|Others(es, inbox)| - 1] == Others(es[..n], inbox);
      } else {
        assert Others(es, inbox) == Others(es[..n], inbox);
      }
    }
  }

  /** What forgetting keeps fits, so it evicts nothing. */
  lemma ForgetFits(es: seq<Entry>, size: Size, inbox: string, now: nat)
    requires |es| <= MAX_ENTRIES && Encoded(es, size) <= MAX_BYTES
    ensures Kept(Others(Recent(es, now), inbox), size) == Others(Recent(es, now), inbox)
  {
    hide Recent, Others, Kept, Total;
    var kept := Others(Recent(es, now), inbox);
    RecentIsSmaller(es, now, size);
    OthersAreSmaller(Recent(es, now), inbox, size);
    assert es == [] ==> kept == [];
    WritesKeepTheNewest(kept, size);
    assert kept[0..] == kept;
  }

  /**
   Exactly what forgetting an inbox leaves: the recent entries of the others, in order and without any eviction.
   So a recent entry of somebody else is lost exactly when it is an operator entry.
   */
  lemma ForgetExactly(es: seq<Entry>, size: Size, raw: string, now: nat)
    requires Stored(es, size) && Note.NormalizeInboxId(raw).Some?
    ensures var inbox, t := Note.NormalizeInboxId(raw).value, Next(es, size, Forget(raw), now);
      && t == Others(Recent(es, now), inbox)
      && (forall e :: e in t ==> e in es && e.inbox != inbox && !e.operator)
      && (forall e :: e in es && e.received + RETENTION >= now && e.inbox != inbox ==> (e !in t <==> e.operator))
  {
    hide Kept, Others, Recent;
    var inbox := Note.NormalizeInboxId(raw).value;
    ForgetFits(es, size, inbox, now);
    RecentKeeps(es, now);
    OthersKeeps(Recent(es, now), inbox);
  }

  lemma OneLetterInbox(raw: string)
    requires raw == "a" || raw == "b"
    ensures Note.NormalizeInboxId(raw) == Some(raw)
  {
    assert Text.Lower(raw) == raw;
  }

  const OPERATOR_MESSAGE := Message("b", None, "1", "", None, None, true)
  const OPERATOR_ENTRY := Entry("b", None, "1", 0, "", None, None, true)

  /** A run that loses somebody else's entry: the operator's inbox writes, another inbox is forgotten. */
  lemma ForgetLosesOperatorEntry(size: Size)
    requires ENVELOPE + size(OPERATOR_ENTRY) <= MAX_BYTES
    ensures var written := Timed(Record(OPERATOR_MESSAGE), 0);
      && Run([], size, [written]) == [OPERATOR_ENTRY]
      && Run([], size, [written, Timed(Forget("a"), 0)]) == [] && Note.NormalizeInboxId("a") == Some("a")
  {
    OneLetterInbox("a");
    OneLetterInbox("b");
    OneEntryFits(size);
    hide Next, Kept, Stored, Note.NormalizeInboxId, Recent, Others, OPERATOR_ENTRY, OPERATOR_MESSAGE;
    RunOfTwo([], size, Timed(Record(OPERATOR_MESSAGE), 0), Timed(Forget("a"), 0));
    OperatorWrites(size);
    ForgetExactly([OPERATOR_ENTRY], size, "a", 0);
    OperatorIsForgotten();
  }

  lemma RunOfTwo(es: seq<Entry>, size: Size, a: Timed, b: Timed)
    ensures Run(es, size, [a]) == Next(es, size, a.operation, a.now)
    ensures Run(es, size, [a, b]) == Next(Run(es, size, [a]), size, b.operation, b.now)
  {
    hide Next;
    assert [a][..0] == [] && [a, b][..1] == [a];
    assert Run(es, size, []) == es;
  }

  lemma OperatorWrites(size: Size)
    requires Kept([OPERATOR_ENTRY], size) == [OPERATOR_ENTRY] && Note.NormalizeInboxId("b") == Some("b")
    ensures Next([], size, Record(OPERATOR_MESSAGE), 0) == [OPERATOR_ENTRY]
  {
    hide Kept, Note.NormalizeInboxId;
    RecordsExactly([], size, OPERATOR_MESSAGE, "b", 0);
    assert Recent([], 0) + [OPERATOR_ENTRY] == [OPERATOR_ENTRY];
  }

  lemma OperatorIsForgotten()
    ensures Others(Recent([OPERATOR_ENTRY], 0), "a") == []
  {
    OthersKeeps(Recent([OPERATOR_ENTRY], 0), "a");
    RecentKeeps([OPERATOR_ENTRY], 0);
    hide Others, Recent;
    NoEntries(Others(Recent([OPERATOR_ENTRY], 0), "a"));
  }

  lemma NoEntries(es: seq<Entry>)
    ensures es == [] || exists e :: e in es
  {
    assert es != [] ==> es[0] in es;
  }

  lemma OneEntryFits(size: Size)
    requires ENVELOPE + size(OPERATOR_ENTRY) <= MAX_BYTES
    ensures Kept([OPERATOR_ENTRY], size) == [OPERATOR_ENTRY] && Stored([OPERATOR_ENTRY], size)
  {
    assert [OPERATOR_ENTRY][1..] == [];
    assert Total([], size) == 0;
  }

  /** The stored form of an address: forty-two characters, `0x` and hexadecimal digits, in lower case; or nothing. */
  predicate IsStoredAddress(given: Option<string>, stored: Option<string>) {
    if && given.Some? && |given.value| == 42 && given.value[0] == '0' && given.value[1] == 'x'
       && forall i :: 2 <= i < 42 ==>
            var c := given.value[i]; '0' <= c <= '9' || 'a' <= c <= 'f' || 'A' <= c <= 'F'
    then stored == Some(Text.Lower(given.value))
    else stored == None
  }

  lemma AddressesAreNormalized(given: Option<string>)
    ensures IsStoredAddress(given, StoredAddress(given))
  {
    if given.Some? && |given.value| == 42 {
      var a := given.value;
      assert a[..2] == "0x" <==> a[0] == '0' && a[1] == 'x';
      assert forall i :: 2 <= i < 42 ==>
        (Note.IsHex(a[i]) <==> '0' <= a[i] <= '9' || 'a' <= a[i] <= 'f' || 'A' <= a[i] <= 'F');
    }
  }

  predicate HasKey(e: Entry, inbox: string, m: Message) {
    e.inbox == inbox && e.id == m.id && e.group == m.group && e.operator == m.operator
  }

  /**
   What recording does: a text that is too long is refused; a new message is appended with its stored address and
   without a reply, a repeated one changes nothing; a reply is put to the entry of its message, and without one it is
   too late. Whatever is written only loses its oldest entries.
   */
  lemma RecordsExactly(es: seq<Entry>, size: Size, m: Message, inbox: string, now: nat)
    requires UniqueKeys(es) && Note.NormalizeInboxId(m.inbox) == Some(inbox)
    ensures var read, t := Recent(es, now), Next(es, size, Record(m), now);
      if |m.text| > 16_384 || (m.reply.Some? && |m.reply.value| > 16_384) || |m.id| > 1_024 then t == es
      else if forall e :: e in read ==> !HasKey(e, inbox, m) then
        if m.reply.Some? then t == es
        else
          exists address ::
            && IsStoredAddress(m.address, address)
            && t == Kept(read + [Entry(inbox, address, m.id, now, m.text, None, m.group, m.operator)], size)
      else
        forall i :: 0 <= i < |read| && HasKey(read[i], inbox, m) ==>
          t == Kept(if m.reply.Some? then read[i := read[i].(reply := m.reply)] else read, size)
  {
    hide Kept, Recent, Recorded, Note.NormalizeInboxId, IsStoredAddress, StoredAddress, HasKey, UniqueKeys;
    RecentKeeps(es, now);
    AddressesAreNormalized(m.address);
    RecordedExactly(Recent(es, now), m, inbox, now);
  }

  lemma RecordedExactly(read: seq<Entry>, m: Message, inbox: string, now: nat)
    requires UniqueKeys(read)
    ensures (forall e :: e in read ==> !HasKey(e, inbox, m)) ==>
              Recorded(read, m, inbox, now) ==
                if m.reply.Some? then None
                else Some(read + [Entry(inbox, StoredAddress(m.address), m.id, now, m.text, None, m.group, m.operator)])
    ensures forall i :: 0 <= i < |read| && HasKey(read[i], inbox, m) ==>
              Recorded(read, m, inbox, now)
              == Some(if m.reply.Some? then read[i := read[i].(reply := m.reply)] else read)
  {
    hide StoredAddress;
    var found := Find(read, MessageKey(m, inbox));
    if found.Some? {
      assert HasKey(read[found.value], inbox, m);
    }
  }

  lemma RecordedMembers(es: seq<Entry>, m: Message, inbox: string, now: nat, e: Entry)
    requires Recorded(es, m, inbox, now).Some? && e in Recorded(es, m, inbox, now).value
    ensures e in es || (e.inbox == inbox && (m.reply.None? || exists d :: d in es && d.inbox == inbox))
  {
    var i := Find(es, MessageKey(m, inbox));
    if i.Some? && m.reply.Some? && e !in es {
      assert es[i.value] in es && es[i.value].inbox == inbox;
    }
  }

  lemma NextKeepsAbsent(es: seq<Entry>, size: Size, op: Operation, now: nat, inbox: string)
    requires Absent(es, inbox) && !IsNewMessage(op, inbox)
    ensures Absent(Next(es, size, op, now), inbox)
  {
    hide Kept, Others, Recent, Recorded;
    RecentKeeps(es, now);
    var read := Recent(es, now);
    match op
    case Prune => KeptMembers(read, size);
    case Forget(raw) =>
      if Note.NormalizeInboxId(raw).Some? {
        OthersKeeps(read, Note.NormalizeInboxId(raw).value);
        KeptMembers(Others(read, Note.NormalizeInboxId(raw).value), size);
      }
    case Record(m) =>
      if Note.NormalizeInboxId(m.inbox).Some? && Recorded(read, m, Note.NormalizeInboxId(m.inbox).value, now).Some? {
        var from := Note.NormalizeInboxId(m.inbox).value;
        var journal := Recorded(read, m, from, now).value;
        forall e | e in journal
          ensures e.inbox != inbox
        {
          RecordedMembers(read, m, from, now, e);
        }
        KeptMembers(journal, size);
      }
  }

  /** After a forget, nothing of that inbox comes back until a new message, however late its replies arrive. */
  lemma {:induction false} ForgottenStaysForgotten(es: seq<Entry>, size: Size, raw: string, now: nat, ops: seq<Timed>)
    requires Note.NormalizeInboxId(raw).Some?
    requires forall i :: 0 <= i < |ops| ==> !IsNewMessage(ops[i].operation, Note.NormalizeInboxId(raw).value)
    ensures Absent(Run(Next(es, size, Forget(raw), now), size, ops), Note.NormalizeInboxId(raw).value)
  {
    hide Next, Absent, IsNewMessage;
    var s := Next(es, size, Forget(raw), now);
    if ops == [] {
      ForgetRemoves(es, size, raw, now);
    } else {
      var n := |ops| - 1;
      ForgottenStaysForgotten(es, size, raw, now, ops[..n]);
      NextKeepsAbsent(Run(s, size, ops[..n]), size, ops[n].operation, ops[n].now, Note.NormalizeInboxId(raw).value);
    }
  }

  // ---------------------------------------------------------------- the journal as an object

  lemma OneEntryLess(es: seq<Entry>, size: Size)
    requires es != []
    ensures Encoded(es, size) >= size(es[0]) + 1
    ensures Encoded(es, size) - (size(es[0]) + 1) == if |es| > 1 then Encoded(es[1..], size) else ENVELOPE - 1
  {
    assert Total(es, size) == size(es[0]) + 1 + Total(es[1..], size);
    assert |es| == 1 ==> es[1..] == [];
  }

  lemma DropOldestStep(es: seq<Entry>, size: Size)
    ensures es == [] || Encoded(es, size) < MAX_BYTES ==> DropOldest(es, size) == es
    ensures es != [] && Encoded(es, size) >= MAX_BYTES ==> DropOldest(es, size) == DropOldest(es[1..], size)
  {
  }

  class History {
    const size: Size
    var journal: seq<Entry>

    ghost predicate Valid()
      reads this
    {
      Stored(journal, size)
    }

    constructor (size: Size)
      ensures Valid() && journal == [] && this.size == size
    {
      this.size, journal := size, [];
    }

    /** Keeps a running length instead of encoding again after every removal. */
    method Write(entries: seq<Entry>)
      requires UniqueKeys(entries)
      modifies this
      ensures Valid() && journal == Kept(entries, size)
    {
      hide Encoded, DropOldest, Stored, UniqueKeys;
      KeptIsStored(entries, size);
      var es := entries;
      if |es| > MAX_ENTRIES {
        es := es[|es| - MAX_ENTRIES..];
      }
      assert es == Capped(entries);
      if Encoded(es, size) > MAX_BYTES {
        EmptyEncodes(size);
        var remaining, remove := Encoded(es, size), 0;
        while remove < |es|
          invariant remove <= |es|
          invariant remaining == if remove < |es| then Encoded(es[remove..], size) else ENVELOPE - 1
          invariant remove == 0 || DropOldest(es[1..], size) == DropOldest(es[remove..], size)
          invariant remove > 0 ==> remaining >= MAX_BYTES
        {
          var rest := es[remove..];
          assert rest[0] == es[remove] && rest[1..] == es[remove + 1..];
          OneEntryLess(rest, size);
          DropOldestStep(rest, size);
          var length := size(es[remove]) + 1;
          remaining := if remaining >= length then remaining - length else 0;
          remove := remove + 1;
          if remaining < MAX_BYTES {
            break;
          }
        }
        DropOldestStep(es[remove..], size);
        es := es[remove..];
      }
      journal := es;
    }

    method Read(now: nat) returns (entries: seq<Entry>)
      requires Valid()
      ensures entries == Recent(journal, now) && UniqueKeys(entries)
    {
      RecentKeeps(journal, now);
      entries := [];
      for i := 0 to |journal|
        invariant entries == Recent(journal[..i], now)
      {
        assert journal[..i + 1][..i] == journal[..i];
        if journal[i].received >= if now > RETENTION then now - RETENTION else 0 {
          entries := entries + [journal[i]];
        }
      }
      assert journal[..|journal|] == journal;
    }

    /** True for the first retained message of an inbox; a reply without its message is dropped. */
    method RecordScoped(m: Message, now: nat) returns (r: Result<bool, string>)
      requires Valid()
      modifies this
      ensures Valid() && journal == Next(old(journal), size, Record(m), now)
      ensures r.Err? <==>
              || Note.NormalizeInboxId(m.inbox).None?
              || |m.text| > 16_384 || (m.reply.Some? && |m.reply.value| > 16_384) || |m.id| > 1_024
      ensures r == Ok(true) <==>
              && Note.NormalizeInboxId(m.inbox).Some? && !TooLarge(m) && m.reply.None?
              && Absent(Recent(old(journal), now), Note.NormalizeInboxId(m.inbox).value)
    {
      hide Kept, Recent, Stored;
      var inbox := Note.NormalizeInboxId(m.inbox);
      if inbox.None? {
        return Err("invalid XMTP inbox ID");
      }
      if TooLarge(m) {
        return Err("history entry too large");
      }
      var entries := Read(now);
      var known := exists i :: 0 <= i < |entries| && entries[i].inbox == inbox.value;
      var found := Find(entries, MessageKey(m, inbox.value));
      if found.Some? {
        if m.reply.Some? {
          entries := entries[found.value := entries[found.value].(reply := m.reply)];
        }
      } else {
        if m.reply.Some? {
          return Ok(false);
        }
        entries := entries + [NewEntry(m, inbox.value, now)];
      }
      RecordedKeepsUnique(Recent(journal, now), m, inbox.value, now);
      Write(entries);
      return Ok(!known);
    }

    /** Forgetting one inbox also drops every operator entry. */
    method ForgetInbox(raw: string, now: nat) returns (ok: bool)
      requires Valid()
      modifies this
      ensures Valid() && journal == Next(old(journal), size, Forget(raw), now)
      ensures ok <==> Note.NormalizeInboxId(raw).Some?
      ensures ok ==> journal == Others(Recent(old(journal), now), Note.NormalizeInboxId(raw).value)
    {
      hide Kept, Recent, Others, Stored;
      var inbox := Note.NormalizeInboxId(raw);
      if inbox.None? {
        return false;
      }
      ForgetExactly(journal, size, raw, now);
      var entries := Read(now);
      OthersKeeps(entries, inbox.value);
      var kept := RetainOthers(entries, inbox.value);
      Write(kept);
      return true;
    }

    static method RetainOthers(entries: seq<Entry>, inbox: string) returns (kept: seq<Entry>)
      ensures kept == Others(entries, inbox)
    {
      kept := [];
      for i := 0 to |entries|
        invariant kept == Others(entries[..i], inbox)
      {
        assert entries[..i + 1][..i] == entries[..i];
        if entries[i].inbox != inbox && !entries[i].operator {
          kept := kept + [entries[i]];
        }
      }
      assert entries[..|entries|] == entries;
    }
  }
}

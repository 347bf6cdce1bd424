/**
 The two control banks on flash, the boot scan that selects a root from them, and the proof that
 the scan recovers the authoritative root however much of the disposable bank an interrupted
 erase has left behind.
 */
module JournalFlash {
  import opened JournalRules

  /** A page as a reader sees it: erased, unreadable as a record (torn), or a sealed record. */
  datatype Cell = Blank | Torn | Page(root: Root)

  type Bank = s: seq<Cell> | |s| == SLOTS witness seq(SLOTS, _ => Blank)

  function BlankBank(): Bank { seq(SLOTS, _ => Blank) }

  datatype Flash = Flash(bank0: Bank, bank1: Bank) {
    function At(k: BankIndex): Bank {
      if k == 0 then bank0 else bank1
    }

    function With(k: BankIndex, b: Bank): Flash {
      if k == 0 then this.(bank0 := b) else this.(bank1 := b)
    }

    function Put(k: BankIndex, slot: nat, c: Cell): Flash
      requires slot < SLOTS
    {
      With(k, At(k)[slot := c])
    }
  }

  function Other(k: BankIndex): BankIndex { 1 - k }

  datatype Decoded = NotARecord | Contradiction | Record(root: Root)

  /** Torn and foreign bytes are not records; a sealed record in the wrong place or breaking the
      format rules is a contradiction. */
  function Decode(seal: Seal, k: BankIndex, slot: nat, c: Cell): Decoded {
    match c
    case Blank => NotARecord
    case Torn => NotARecord
    case Page(r) =>
      if r.digest != seal(r.snap) then NotARecord
      else if r.snap.bank != k || r.snap.slot != slot || !Syntax(r.snap) then Contradiction
      else Record(r)
  }

  // ----- The scan of one bank -----------------------------------------------------------------------

  datatype Scan = Scan(gap: bool, broken: bool, highest: nat, first: Decoded, last: Decoded)

  const SCAN_START := Scan(false, false, 0, NotARecord, NotARecord)

  function ScanStep(s: Scan, d: Decoded): Scan {
    match d
    case Record(r) =>
      Scan(s.gap,
           s.broken || s.gap || (s.last.Record? && !Transition(s.last.root, r.snap)),
           if r.snap.epoch > s.highest then r.snap.epoch else s.highest,
           if s.first.Record? then s.first else d,
           d)
    case _ => s.(gap := true)
  }

  function ScanBank(seal: Seal, k: BankIndex, b: Bank, n: nat): Scan
    requires n <= SLOTS
  {
    if n == 0 then SCAN_START
    else ScanStep(ScanBank(seal, k, b, n - 1), Decode(seal, k, n - 1, b[n - 1]))
  }

  function LastEpoch(s: Scan): nat {
    if s.last.Record? then s.last.root.snap.epoch else 0
  }

  datatype BootResult = NoRoot | Conflict | Selected(root: Root)

  function Select(s0: Scan, s1: Scan): BootResult {
    var pick1 := LastEpoch(s1) > LastEpoch(s0);
    var mine, other := if pick1 then s1 else s0, if pick1 then s0 else s1;
    if !mine.last.Record? || !mine.first.Record? then NoRoot
    else if mine.broken || mine.first.root.snap.slot != 0
         || (other.highest >= mine.first.root.snap.epoch && other.highest != 0)
         || (other.last.Record? && other.last.root.snap.epoch == mine.first.root.snap.previousEpoch
             && !Transition(other.last.root, mine.first.root.snap)) then Conflict
    else Selected(mine.last.root)
  }

  predicate Contradicted(seal: Seal, f: Flash) {
    exists k: BankIndex, i: nat :: i < SLOTS && Decode(seal, k, i, f.At(k)[i]).Contradiction?
  }

  function BootScan(seal: Seal, f: Flash): BootResult {
    if Contradicted(seal, f) then Conflict
    else Select(ScanBank(seal, 0, f.bank0, SLOTS), ScanBank(seal, 1, f.bank1, SLOTS))
  }

  // ----- Authority -----------------------------------------------------------------------------------

  /** Slots 0..n-1 hold an unbroken chain of records in place and nothing decodes behind it. */
  ghost predicate Chain(seal: Seal, k: BankIndex, b: Bank, n: nat) {
    && 1 <= n <= SLOTS
    && (forall i :: 0 <= i < n ==> Decode(seal, k, i, b[i]).Record?)
    && (forall i :: 0 < i < n ==> Transition(b[i-1].root, b[i].root.snap))
    && (forall i :: n <= i < SLOTS ==> !b[i].Page?)
  }

  /** Whatever an erase left of the bank: old records, none of which can pose as a successor. */
  ghost predicate Disposable(seal: Seal, k: BankIndex, b: Bank, first: Snapshot) {
    forall i :: 0 <= i < SLOTS && b[i].Page? ==>
      && Decode(seal, k, i, b[i]).Record?
      && b[i].root.snap.epoch < first.epoch
      && (b[i].root.snap.epoch == first.previousEpoch ==> Transition(b[i].root, first))
  }

  ghost predicate AuthoritativeAt(seal: Seal, f: Flash, root: Root, n: nat) {
    var k := root.snap.bank;
    && Chain(seal, k, f.At(k), n)
    && f.At(k)[n-1] == Page(root)
    && Disposable(seal, Other(k), f.At(Other(k)), f.At(k)[0].root.snap)
  }

  /** `root` is the one record the flash stands for. */
  ghost predicate Authoritative(seal: Seal, f: Flash, root: Root) {
    AuthoritativeAt(seal, f, root, root.snap.slot + 1)
  }

  lemma {:induction false} ChainScan(seal: Seal, k: BankIndex, b: Bank, n: nat, m: nat)
    requires Chain(seal, k, b, n) && m <= SLOTS
    ensures var s := ScanBank(seal, k, b, m);
            && !s.broken && (s.gap <==> m > n)
            && (m == 0 ==> s == SCAN_START)
            && (m > 0 ==> s.first == Record(b[0].root)
                          && s.last == Record(b[(if m < n then m else n) - 1].root))
  {
    if m > 0 {
      ChainScan(seal, k, b, n, m - 1);
      if m - 1 < n {
        assert Decode(seal, k, m - 1, b[m-1]).Record?;
      } else {
        assert !b[m-1].Page?;
      }
    }
  }

  lemma {:induction false} DisposableScan(seal: Seal, k: BankIndex, b: Bank, first: Snapshot, m: nat)
    requires Disposable(seal, k, b, first) && first.epoch >= 1 && m <= SLOTS
    ensures var s := ScanBank(seal, k, b, m);
            && s.highest < first.epoch
            && (s.last.Record? ==> exists i :: 0 <= i < m && b[i] == Page(s.last.root))
  {
    if m > 0 {
      DisposableScan(seal, k, b, first, m - 1);
      var s := ScanBank(seal, k, b, m - 1);
      if b[m-1].Page? {
        assert Decode(seal, k, m - 1, b[m-1]).Record?;
      } else if s.last.Record? {
        var i :| 0 <= i < m - 1 && b[i] == Page(s.last.root);
        assert 0 <= i < m;
      }
    }
  }

  lemma {:induction false} ChainEpochs(seal: Seal, k: BankIndex, b: Bank, n: nat, i: nat)
    requires Chain(seal, k, b, n) && i < n
    ensures b[i].root.snap.epoch == b[0].root.snap.epoch + i
  {
    if i > 0 {
      ChainEpochs(seal, k, b, n, i - 1);
      assert Transition(b[i-1].root, b[i].root.snap);
    }
  }

  /** Boot selects exactly the authoritative root: never an older one, never a conflict. */
  lemma {:induction false} BootRecovers(seal: Seal, f: Flash, root: Root)
    requires Authoritative(seal, f, root)
    ensures BootScan(seal, f) == Selected(root)
  {
    var k := root.snap.bank;
    var n := root.snap.slot + 1;
    var mine, other := f.At(k), f.At(Other(k));
    var first := mine[0].root.snap;
    assert Decode(seal, k, 0, mine[0]).Record?;
    forall q: BankIndex, i: nat | i < SLOTS
      ensures !Decode(seal, q, i, f.At(q)[i]).Contradiction?
    {
      if q == k {
        if i < n { assert Decode(seal, k, i, mine[i]).Record?; } else { assert !mine[i].Page?; }
      } else {
        assert q == Other(k);
      }
    }
    ChainScan(seal, k, mine, n, SLOTS);
    DisposableScan(seal, Other(k), other, first, SLOTS);
    ChainEpochs(seal, k, mine, n, n - 1);
    var so := ScanBank(seal, Other(k), other, SLOTS);
    if so.last.Record? {
      var i :| 0 <= i < SLOTS && other[i] == Page(so.last.root);
      assert so.last.root.snap.epoch < first.epoch;
    }
  }

  // ----- What a publication does to the banks --------------------------------------------------------

  /** The next slot of the root's own bank takes the record. */
  lemma AppendKeepsAuthority(seal: Seal, f: Flash, root: Root, next: Root)
    requires Authoritative(seal, f, root)
    requires Sealed(seal, next) && Syntax(next.snap) && Transition(root, next.snap)
    requires next.snap.bank == root.snap.bank
    ensures Authoritative(seal, f.Put(next.snap.bank, next.snap.slot, Page(next)), next)
  {
    var k := root.snap.bank;
    var n := root.snap.slot + 1;
    var g := f.Put(k, n, Page(next));
    assert g.At(Other(k)) == f.At(Other(k));
    assert Chain(seal, k, g.At(k), n + 1);
  }

  /** A freshly erased other bank takes the record in slot 0; the old bank becomes disposable. */
  lemma SwitchKeepsAuthority(seal: Seal, f: Flash, root: Root, next: Root)
    requires Authoritative(seal, f, root)
    requires Sealed(seal, next) && Syntax(next.snap) && Transition(root, next.snap)
    requires next.snap.bank != root.snap.bank
    ensures var k := next.snap.bank;
            Authoritative(seal, f.With(k, BlankBank()).Put(k, 0, Page(next)), next)
  {
    var k, o := next.snap.bank, root.snap.bank;
    var g := f.With(k, BlankBank()).Put(k, 0, Page(next));
    var prior := f.At(o);
    var n := root.snap.slot + 1;
    assert g.At(o) == prior && o == Other(k);
    forall i | 0 <= i < SLOTS && prior[i].Page?
      ensures Decode(seal, o, i, prior[i]).Record?
      ensures prior[i].root.snap.epoch < next.snap.epoch
      ensures prior[i].root.snap.epoch == next.snap.previousEpoch ==> Transition(prior[i].root, next.snap)
    {
      assert i < n;
      ChainEpochs(seal, o, prior, n, i);
      ChainEpochs(seal, o, prior, n, n - 1);
    }
  }

  /** Whatever happens to the other bank's cells short of a new record, the root stays. */
  lemma DamageKeepsAuthority(seal: Seal, f: Flash, root: Root, b: Bank)
    requires Authoritative(seal, f, root)
    requires forall i :: 0 <= i < SLOTS && b[i].Page? ==> b[i] == f.At(Other(root.snap.bank))[i]
    ensures Authoritative(seal, f.With(Other(root.snap.bank), b), root)
  {
    var k := root.snap.bank;
    var g := f.With(Other(k), b);
    assert g.At(k) == f.At(k) && g.At(Other(k)) == b;
  }

  /** A torn cell behind the chain hides nothing. */
  lemma TornTailKeepsAuthority(seal: Seal, f: Flash, root: Root, slot: nat, c: Cell)
    requires Authoritative(seal, f, root)
    requires root.snap.slot < slot < SLOTS && !c.Page?
    ensures Authoritative(seal, f.Put(root.snap.bank, slot, c), root)
  {
    var k := root.snap.bank;
    var g := f.Put(k, slot, c);
    assert g.At(Other(k)) == f.At(Other(k));
  }

  /** Only one root can be authoritative, so "the recovered root" is well defined. */
  lemma AuthorityIsUnique(seal: Seal, f: Flash, a: Root, b: Root)
    requires Authoritative(seal, f, a) && Authoritative(seal, f, b)
    ensures a == b
  {
    BootRecovers(seal, f, a);
    BootRecovers(seal, f, b);
  }
}

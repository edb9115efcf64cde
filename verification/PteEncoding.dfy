/** Entries of page tables as 64-bit words: what `src/mm.c` reads of a word through the functions of
    `src/arch/aarch64/mm.c` is what the model of page tables in memory says of the entry. */
module PteEncoding {
  import opened PageTree
  import opened Stage2Pte
  import TableMemory
  import Mm

  type Entry = TableMemory.Pte

  /** Where tables are. */
  ghost predicate Addresses(addr: map<Page, bv64>) {
    && (forall p :: p in addr ==> IsPa(addr[p]))
    && (forall p, q :: p in addr && q in addr && addr[p] == addr[q] ==> p == q)
  }

  /** `word` is what the code writes for an entry at `level` for the memory at `pa`. */
  ghost predicate Stores(word: bv64, v: Entry, level: nat, pa: bv64, addr: map<Page, bv64>) {
    match v
    case AbsentPte => word == AbsentPte()
    case BlockPte(a) =>
      && BlockAllowed(level) && BlockParts(pa, PteAttrs(word)) && word == BlockPte(level, pa, PteAttrs(word))
      && PteAttrs(word) as nat == a
    case TablePte(p) => level > 0 && p in addr && word == TablePte(addr[p])
  }

  /** The word is taken for what it was written for, at every level, and its attributes and address
      are those it was written with. */
  lemma ReadsBack(word: bv64, v: Entry, level: nat, pa: bv64, addr: map<Page, bv64>)
    requires Stores(word, v, level, pa, addr) && Addresses(addr)
    ensures IsPresent(word) <==> Mm.IsPresent(v)
    ensures IsBlock(word, level) <==> v.BlockPte?
    ensures IsTable(word, level) <==> v.TablePte?
    ensures PteAttrs(word) as nat == Mm.PteAttrs(v)
    ensures v.BlockPte? ==> PteAddr(word) == pa
    ensures v.TablePte? ==> PteAddr(word) == addr[v.page]
  {
    match v
    case AbsentPte =>
      AbsentKind(level);
    case BlockPte(_) =>
      if level == 0 {
        PageKind(pa, PteAttrs(word), word);
      } else {
        LargeKind(level, pa, PteAttrs(word), word);
      }
    case TablePte(p) =>
      TableKind(level, addr[p]);
  }

  /** No word stands for two entries. */
  lemma StoresOne(word: bv64, u: Entry, v: Entry, level: nat, pa: bv64, addr: map<Page, bv64>)
    requires Stores(word, u, level, pa, addr) && Stores(word, v, level, pa, addr) && Addresses(addr)
    ensures u == v
  {
    ReadsBack(word, u, level, pa, addr);
    ReadsBack(word, v, level, pa, addr);
  }

  /** Memory that is mapped in a mode, or unmapped, has the entry that the model gives it. */
  lemma ModeIsStored(m: Mode, level: nat, pa: bv64, addr: map<Page, bv64>)
    requires IsPa(pa) && BlockAllowed(level)
    ensures var a := ModeToStage2Attrs(m);
            if Unmapped(m) then Stores(AbsentPte(), TableMemory.AbsentPte, level, pa, addr)
            else Stores(BlockPte(level, pa, a), TableMemory.BlockPte(AttrsOf(m)), level, pa, addr)
  {
    if !Unmapped(m) {
      AttrsAreParts(pa, m);
      BlockIsStored(ModeToStage2Attrs(m), level, pa, addr);
    }
  }

  lemma BlockIsStored(a: bv64, level: nat, pa: bv64, addr: map<Page, bv64>)
    requires BlockParts(pa, a) && BlockAllowed(level)
    ensures Stores(BlockPte(level, pa, a), TableMemory.BlockPte(a as nat), level, pa, addr)
  {
    if level == 0 {
      PageKind(pa, a, BlockPte(level, pa, a));
    } else {
      LargeKind(level, pa, a, BlockPte(level, pa, a));
    }
  }

  /** Merging: the block that replaces a table, with the attributes that the code combines from the
      table's word and its first entry's, is stored as the block of the first entry's attributes. */
  lemma MergeIsStored(table: bv64, first: bv64, v: Entry, level: nat, pa: bv64, vhe: bool, addr: map<Page, bv64>)
    requires IsPa(table) && level > 0 && BlockAllowed(level) && v.BlockPte? && Stores(first, v, level - 1, pa, addr)
    ensures var a := CombineTableEntryAttrs(PteAttrs(TablePte(table)), PteAttrs(first), vhe);
            Stores(BlockPte(level, pa, a), TableMemory.BlockPte(Mm.PteAttrs(v)), level, pa, addr)
  {
    CombineKeepsAttrs(table, PteAttrs(first), vhe);
    BlockIsStored(PteAttrs(first), level, pa, addr);
  }

  /** Splitting: every entry of the table that replaces a block is stored with the block's
      attributes. */
  lemma SplitIsStored(word: bv64, v: Entry, level: nat, pa: bv64, part: bv64, addr: map<Page, bv64>)
    requires level > 0 && v.BlockPte? && Stores(word, v, level, pa, addr) && IsPa(part)
    ensures Stores(BlockPte(level - 1, part, PteAttrs(word)), v, level - 1, part, addr)
  {
    BlockIsStored(PteAttrs(word), level - 1, part, addr);
  }
}

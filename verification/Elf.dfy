// The symbol table that is handed to the kernel debugger: the ELF symbols that matter, as packed nlist
// entries behind a header, and the string table right behind the last of them.

module Elf {

  const INT_BYTES := 4
  const NLIST_BYTES := 12

  const STT_NOTYPE := 0
  const STT_OBJECT := 1
  const STT_FUNC := 2
  const STT_SECTION := 3
  const STT_FILE := 4
  const STT_LOPROC := 13
  const STT_HIPROC := 15
  const STB_GLOBAL := 1
  const SHN_UNDEF := 0

  const N_UNDF := 0
  const N_EXT := 1
  const N_ABS := 2
  const N_TEXT := 4
  const N_DATA := 6
  const N_BSS := 8
  const N_FN := 0x1e

  // An Elf32_Sym, with st_info split into its two halves.
  datatype Sym = Sym(name: nat, value: nat, kind: nat, bind: nat, shndx: nat)
  datatype Nlist = Nlist(strx: nat, kind: nat, value: nat)
  datatype Info = Info(textStart: nat, textSize: nat, dataStart: nat, dataSize: nat, bssSize: nat, strSize: nat)

  // Section symbols and the like are left out, and symbols without a type unless they are undefined.
  predicate Ignored(s: Sym) {
    s.kind == STT_LOPROC || s.kind == STT_HIPROC || s.kind == STT_SECTION
      || (s.kind == STT_NOTYPE && s.shndx != SHN_UNDEF)
  }

  function Section(value: nat, lp: Info): nat {
    if lp.textStart <= value < lp.textStart + lp.textSize then N_TEXT
    else if lp.dataStart <= value < lp.dataStart + lp.dataSize then N_DATA
    else if lp.dataStart + lp.dataSize <= value < lp.dataStart + lp.dataSize + lp.bssSize + INT_BYTES then N_BSS
    else N_ABS
  }

  function Kind(s: Sym, lp: Info): nat {
    (if s.kind == STT_FILE then N_FN
     else if s.kind == STT_OBJECT || s.kind == STT_FUNC then Section(s.value, lp)
     else N_UNDF)
    + if s.bind == STB_GLOBAL then N_EXT else 0
  }

  predicate HasAddress(s: Sym) {
    s.kind == STT_OBJECT || s.kind == STT_FUNC
  }

  predicate Within(value: nat, start: nat, size: nat) {
    start <= value < start + size
  }

  // What n_type says of a symbol: its lowest bit that it is global, and the rest that it names a file, or
  // which section its address is in, where text comes before data and data before bss.
  lemma KindIs(s: Sym, lp: Info)
    ensures var n := Kind(s, lp); var base := n - n % 2;
      && (n % 2 == 1 <==> s.bind == STB_GLOBAL)
      && (base == N_FN <==> s.kind == STT_FILE)
      && (base == N_UNDF <==> s.kind != STT_FILE && !HasAddress(s))
      && var text := Within(s.value, lp.textStart, lp.textSize);
      var data := Within(s.value, lp.dataStart, lp.dataSize);
      var bss := Within(s.value, lp.dataStart + lp.dataSize, lp.bssSize + INT_BYTES);
      && (base == N_TEXT <==> HasAddress(s) && text)
      && (base == N_DATA <==> HasAddress(s) && data && !text)
      && (base == N_BSS <==> HasAddress(s) && bss && !text)
      && (base == N_ABS <==> HasAddress(s) && !text && !data && !bss)
  {
  }

  function Converted(s: Sym, lp: Info): Nlist {
    Nlist(s.name + INT_BYTES, Kind(s, lp), s.value)
  }

  // The entries of the symbols that are kept, in the order of the input.
  function Packed(syms: seq<Sym>, lp: Info): seq<Nlist> {
    if syms == [] then []
    else Packed(syms[..|syms| - 1], lp) + if Ignored(syms[|syms| - 1]) then [] else [Converted(syms[|syms| - 1], lp)]
  }

  // A symbol that is kept is entry number so many of the table as symbols are kept in front of it.
  lemma {:induction false} PackedAt(syms: seq<Sym>, lp: Info, k: nat)
    requires k < |syms| && !Ignored(syms[k])
    ensures |Packed(syms[..k], lp)| < |Packed(syms, lp)|
    ensures Packed(syms, lp)[|Packed(syms[..k], lp)|] == Converted(syms[k], lp)
  {
    var m := |syms| - 1;
    if k < m {
      PackedAt(syms[..m], lp, k);
      assert syms[..m][..k] == syms[..k];
    }
  }

  // Every entry comes from a symbol that is kept.
  lemma {:induction false} PackedFrom(syms: seq<Sym>, lp: Info, e: nat) returns (k: nat)
    requires e < |Packed(syms, lp)|
    ensures k < |syms| && !Ignored(syms[k]) && e == |Packed(syms[..k], lp)|
      && Packed(syms, lp)[e] == Converted(syms[k], lp)
  {
    var m := |syms| - 1;
    if e < |Packed(syms[..m], lp)| {
      k := PackedFrom(syms[..m], lp, e);
      assert syms[..m][..k] == syms[..k];
    } else {
      k := m;
    }
  }

  // Byte addresses in the table: the header, the entries, the size of the strings, the strings.
  function EntryAddress(k: nat): nat {
    INT_BYTES + NLIST_BYTES * k
  }

  function SizeAddress(entries: nat): nat {
    EntryAddress(entries)
  }

  function StringsAddress(entries: nat): nat {
    SizeAddress(entries) + INT_BYTES
  }

  // An entry's n_strx counts from the size word, and so names the string that st_name names.
  lemma NamesAgree(syms: seq<Sym>, lp: Info, k: nat)
    requires k < |syms| && !Ignored(syms[k])
    ensures var table := Packed(syms, lp); var e := |Packed(syms[..k], lp)|;
      e < |table| && SizeAddress(|table|) + table[e].strx == StringsAddress(|table|) + syms[k].name
  {
    PackedAt(syms, lp, k);
  }

  // The copying loop of elf_symload, over a zeroed table with room for every symbol.  The header and
  // the size of the table shrink with every symbol that is ignored.
  method Symload(syms: seq<Sym>, lp: Info)
    returns (table: array<Nlist>, entries: nat, header: int, tableSize: int, strings: nat)
    ensures fresh(table) && table.Length == |syms| && entries <= table.Length
    ensures table[..entries] == Packed(syms, lp)
    ensures header == NLIST_BYTES * entries && strings == StringsAddress(entries)
    ensures tableSize == strings + lp.strSize
  {
    table := new Nlist[|syms|](_ => Nlist(0, 0, 0));
    tableSize := INT_BYTES + NLIST_BYTES * |syms| + lp.strSize + INT_BYTES;
    header := NLIST_BYTES * |syms|;
    var sstab, nl := 0, EntryAddress(0);
    entries := 0;
    while sstab < |syms|
      invariant entries <= sstab <= |syms| && nl == EntryAddress(entries)
      invariant table[..entries] == Packed(syms[..sstab], lp)
      invariant forall k :: entries <= k < |syms| ==> table[k].kind == N_UNDF
      invariant header == NLIST_BYTES * (|syms| - (sstab - entries))
      invariant tableSize == INT_BYTES + header + lp.strSize + INT_BYTES
    {
      var s := syms[sstab];
      assert syms[..sstab + 1][..sstab] == syms[..sstab];
      var kept := PutEntry(table, entries, s, lp);
      sstab := sstab + 1;
      if !kept {
        header := header - NLIST_BYTES;
        tableSize := tableSize - NLIST_BYTES;
        continue;
      }
      nl, entries := nl + NLIST_BYTES, entries + 1;
    }
    assert syms[..|syms|] == syms;
    strings := nl + INT_BYTES;
  }

  // One symbol: its entry is filled in, or begun and left for the next symbol.
  method PutEntry(table: array<Nlist>, e: nat, s: Sym, lp: Info) returns (kept: bool)
    requires e < table.Length && table[e].kind == N_UNDF
    modifies table
    ensures kept == !Ignored(s)
    ensures table[e] == if kept then Converted(s, lp) else old(table[e]).(strx := s.name + INT_BYTES)
    ensures forall k :: 0 <= k < table.Length && k != e ==> table[k] == old(table[k])
  {
    table[e] := table[e].(strx := s.name + INT_BYTES);
    if s.kind == STT_FILE {
      table[e] := table[e].(kind := N_FN);
    } else if s.kind == STT_OBJECT || s.kind == STT_FUNC {
      table[e] := table[e].(kind := Section(s.value, lp));
    } else if s.kind == STT_NOTYPE && s.shndx == SHN_UNDEF {
      table[e] := table[e].(kind := N_UNDF);
    } else if s.kind == STT_NOTYPE || s.kind == STT_LOPROC || s.kind == STT_HIPROC || s.kind == STT_SECTION {
      return false;
    }
    if s.bind == STB_GLOBAL {
      table[e] := table[e].(kind := WithExt(table[e].kind));
    }
    table[e] := table[e].(value := s.value);
    kept := true;
  }

  // kind | N_EXT, for a kind without that bit.
  function WithExt(kind: nat): nat {
    if kind % 2 == 0 then kind + N_EXT else kind
  }
}

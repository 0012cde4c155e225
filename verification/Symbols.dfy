/** The assembler's symbol table (assembler/lookup_symbol.c). */
module Symbols {

  datatype Binding = Binding(text: string, address: int)

  /** `strncmp(label, query, strlen(query)) == 0`. */
  predicate Matches(text: string, query: string)
  {
    query <= text
  }

  /** A table lists its entries newest first. The most recent one whose label starts with
      the query wins. */
  function Lookup(table: seq<Binding>, query: string): int
  {
    if table == [] then -1
    else if Matches(table[0].text, query) then table[0].address
    else Lookup(table[1..], query)
  }

  /** A table that compares whole names: labels are stored with their colon. */
  function Exact(table: seq<Binding>, name: string): int
  {
    if table == [] then -1
    else if table[0].text == name + ":" then table[0].address
    else Exact(table[1..], name)
  }

  /** Plain last write. */
  function Dictionary(table: seq<Binding>): map<string, int>
  {
    if table == [] then map[] else Dictionary(table[1..])[table[0].text := table[0].address]
  }

  lemma {:induction false} ExactIsLastWrite(table: seq<Binding>, name: string)
    ensures Exact(table, name) ==
            if name + ":" in Dictionary(table) then Dictionary(table)[name + ":"] else -1
  {
    if table != [] { ExactIsLastWrite(table[1..], name); }
  }

  /** Some label that merely starts with the name was added after the name itself, or the
      name was never added. */
  predicate Shadowed(table: seq<Binding>, name: string)
  {
    table != [] && table[0].text != name + ":" &&
    (Matches(table[0].text, name) || Shadowed(table[1..], name))
  }

  function Renumber(table: seq<Binding>, addresses: seq<int>): (r: seq<Binding>)
    requires |addresses| == |table|
    ensures |r| == |table| && forall i | 0 <= i < |r| :: r[i].text == table[i].text
  {
    seq(|table|, i requires 0 <= i < |table| => Binding(table[i].text, addresses[i]))
  }

  lemma {:induction false} UnshadowedIsExact(table: seq<Binding>, name: string)
    requires !Shadowed(table, name)
    ensures Lookup(table, name) == Exact(table, name)
  {
    if table != [] && table[0].text != name + ":" { UnshadowedIsExact(table[1..], name); }
  }

  /** With all addresses different from each other and from -1, the two searches disagree on
      a shadowed name. */
  lemma {:induction false} ShadowedDiffers(table: seq<Binding>, name: string)
    requires Shadowed(table, name)
    requires forall i | 0 <= i < |table| :: table[i].address >= 0
    requires forall i, j | 0 <= i < j < |table| :: table[i].address != table[j].address
    ensures Lookup(table, name) != Exact(table, name)
  {
    if Matches(table[0].text, name) {
      ExactAmong(table[1..], name);
    } else {
      ShadowedDiffers(table[1..], name);
    }
  }

  lemma {:induction false} ExactAmong(table: seq<Binding>, name: string)
    ensures Exact(table, name) == -1 || exists i :: 0 <= i < |table| && table[i].address == Exact(table, name)
  {
    if table != [] {
      ExactAmong(table[1..], name);
      if Exact(table[1..], name) != -1 {
        var i :| 0 <= i < |table[1..]| && table[1..][i].address == Exact(table[1..], name);
        assert table[i + 1].address == table[1..][i].address;
      }
    }
  }

  lemma {:induction false} ShadowedByLabels(a: seq<Binding>, b: seq<Binding>, name: string)
    requires |a| == |b| && forall i | 0 <= i < |a| :: a[i].text == b[i].text
    ensures Shadowed(a, name) == Shadowed(b, name)
  {
    if a != [] { ShadowedByLabels(a[1..], b[1..], name); }
  }

  /** Prefix search is last write exactly when no longer label shadows the name. */
  lemma LookupIsLastWrite(table: seq<Binding>, name: string)
    ensures !Shadowed(table, name) <==>
            forall addresses: seq<int> | |addresses| == |table| ::
              Lookup(Renumber(table, addresses), name) == Exact(Renumber(table, addresses), name)
  {
    forall addresses: seq<int> | |addresses| == |table|
      ensures Shadowed(Renumber(table, addresses), name) == Shadowed(table, name)
      ensures !Shadowed(table, name) ==>
              Lookup(Renumber(table, addresses), name) == Exact(Renumber(table, addresses), name)
    {
      ShadowedByLabels(Renumber(table, addresses), table, name);
      if !Shadowed(table, name) { UnshadowedIsExact(Renumber(table, addresses), name); }
    }
    if Shadowed(table, name) {
      var addresses := seq(|table|, i requires 0 <= i < |table| => i);
      ShadowedDiffers(Renumber(table, addresses), name);
    }
  }

  /** Labels without a name that properly starts with another one never shadow. */
  lemma {:induction false} PrefixFreeNeverShadows(table: seq<Binding>, name: string)
    requires forall i | 0 <= i < |table| :: Matches(table[i].text, name) ==> table[i].text == name + ":"
    ensures !Shadowed(table, name) && Lookup(table, name) == Exact(table, name)
  {
    if table != [] {
      forall i | 0 <= i < |table[1..]|
        ensures Matches(table[1..][i].text, name) ==> table[1..][i].text == name + ":"
      {
        assert table[1..][i] == table[i + 1];
      }
      PrefixFreeNeverShadows(table[1..], name);
    }
  }

  /** For instance a label `loop2` that follows `loop`: looking for `loop` finds `loop2`. */
  lemma LongerLabelWins(a: int, b: int)
    requires a != b
    ensures var table := [Binding("loop2:", b), Binding("loop:", a)];
            && Shadowed(table, "loop")
            && Lookup(table, "loop") == b && Exact(table, "loop") == a
            && "loop:" in Dictionary(table) && Dictionary(table)["loop:"] == a
  {
    var table := [Binding("loop2:", b), Binding("loop:", a)];
    assert table[1..] == [Binding("loop:", a)] && table[1..][1..] == [];
    assert "loop" <= "loop2:" && "loop" + ":" == "loop:" != "loop2:";
  }

  // ---------------------------------------------------------------- the linked list

  class Symbol {
    const text: string
    const address: int
    const next: Symbol?
    ghost const chain: seq<Binding>

    ghost predicate Valid()
      decreases |chain|
    {
      && chain == [Binding(text, address)] + (if next == null then [] else next.chain)
      && (next != null ==> |next.chain| < |chain| && next.Valid())
    }

    constructor (text: string, address: int, next: Symbol?)
      requires next != null ==> next.Valid()
      ensures Valid() && this.next == next
      ensures chain == [Binding(text, address)] + (if next == null then [] else next.chain)
    {
      this.text := text;
      this.address := address;
      this.next := next;
      this.chain := [Binding(text, address)] + (if next == null then [] else next.chain);
    }
  }

  class SymbolTable {
    var head: Symbol?

    ghost predicate Valid()
      reads this
    {
      head != null ==> head.Valid()
    }

    ghost function Contents(): seq<Binding>
      reads this
    {
      if head == null then [] else head.chain
    }

    constructor ()
      ensures Valid() && Contents() == []
    {
      head := null;
    }

    /** `add_symbol`. */
    method AddSymbol(text: string, address: int)
      requires Valid()
      modifies this
      ensures Valid() && Contents() == [Binding(text, address)] + old(Contents())
    {
      head := new Symbol(text, address, head);
    }

    /** `lookup_symbol`. */
    method LookupSymbol(query: string) returns (address: int)
      requires Valid()
      ensures address == Lookup(Contents(), query)
    {
      var current := head;
      while current != null
        invariant current != null ==> current.Valid()
        invariant Lookup(Contents(), query) == Lookup(if current == null then [] else current.chain, query)
        decreases if current == null then 0 else |current.chain|
      {
        if query <= current.text {
          return current.address;
        }
        assert current.chain[1..] == if current.next == null then [] else current.next.chain;
        current := current.next;
      }
      return -1;
    }
  }
}

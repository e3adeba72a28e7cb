/** The symbol table and evaluation context of `basiclang/context.py`. */
module Contexts {

  import opened Wrappers
  import opened Exceptions
  import opened Positions

  /** A name-to-value table with an optional parent. A stored `None` is kept
      as a binding whose value is `None`. */
  datatype SymbolTable<V> = SymbolTable(symbols: map<string, Option<V>>, parent: Option<SymbolTable<V>>)

  /** `SymbolTable()`: no bindings and no parent. */
  function NewSymbolTable<V>(): (t: SymbolTable<V>)
    ensures t.symbols == map[] && t.parent.None?
  {
    SymbolTable(map[], None)
  }

  /** `SymbolTable.get(name)`: a local binding whose value is `None` counts as
      missing and sends the lookup to the parent, when there is one. */
  function Get<V>(t: SymbolTable<V>, name: string): (r: Option<V>)
    ensures name in t.symbols && t.symbols[name].Some? ==> r == t.symbols[name]
    ensures (name !in t.symbols || t.symbols[name].None?) && t.parent.None? ==> r.None?
  {
    var val := if name in t.symbols then t.symbols[name] else None;
    if val.None? && t.parent.Some? then Get(t.parent.value, name) else val
  }

  /** `SymbolTable.set(name, value)`: writes the local table only. */
  function Set<V>(t: SymbolTable<V>, name: string, value: Option<V>): (r: SymbolTable<V>)
    ensures name in r.symbols && r.symbols[name] == value
    ensures forall other :: other != name ==> (other in r.symbols <==> other in t.symbols)
    ensures forall other :: other != name && other in t.symbols ==> r.symbols[other] == t.symbols[other]
    ensures r.parent == t.parent
  {
    t.(symbols := t.symbols[name := value])
  }

  /** `SymbolTable.remove(name)`: `del` of a local binding, a `KeyError` when
      there is none. */
  function Remove<V>(t: SymbolTable<V>, name: string): (r: Completion<SymbolTable<V>>)
    ensures name !in t.symbols <==> r == Raised(KeyError(name))
    ensures r.Returned? ==> r.value.symbols.Keys == t.symbols.Keys - {name}
    ensures r.Returned? ==> forall other :: other in r.value.symbols ==> r.value.symbols[other] == t.symbols[other]
    ensures r.Returned? ==> r.value.parent == t.parent
  {
    if name in t.symbols then Returned(t.(symbols := t.symbols - {name})) else Raised(KeyError(name))
  }

  /** The local tables from `t` outwards. */
  function Chain<V>(t: SymbolTable<V>): (c: seq<map<string, Option<V>>>)
    ensures |c| > 0 && c[0] == t.symbols
  {
    [t.symbols] + (if t.parent.Some? then Chain(t.parent.value) else [])
  }

  /** The first binding to a value other than `None` along a chain of tables. */
  function FirstBinding<V>(chain: seq<map<string, Option<V>>>, name: string): Option<V>
  {
    if chain == [] then None
    else if name in chain[0] && chain[0][name].Some? then chain[0][name]
    else FirstBinding(chain[1..], name)
  }

  /** `get` finds the innermost binding to a value other than `None`. */
  lemma {:induction false} GetIsFirstBinding<V>(t: SymbolTable<V>, name: string)
    ensures Get(t, name) == FirstBinding(Chain(t), name)
  {
    var c := Chain(t);
    if t.parent.Some? {
      GetIsFirstBinding(t.parent.value, name);
      assert c[1..] == Chain(t.parent.value);
    } else {
      assert c[1..] == [];
    }
  }

  /** A `get` after a `set` of the same name sees the new value, unless that
      value is `None`, in which case the lookup goes on to the parent. */
  lemma GetAfterSet<V>(t: SymbolTable<V>, name: string, value: Option<V>)
    ensures Get(Set(t, name, value), name) ==
            if value.None? && t.parent.Some? then Get(t.parent.value, name) else value
  {
  }

  /** A `set` changes no other name's lookup. */
  lemma GetAfterSetOther<V>(t: SymbolTable<V>, name: string, value: Option<V>, other: string)
    requires other != name
    ensures Get(Set(t, name, value), other) == Get(t, other)
  {
  }

  /** Removing a name that a `set` just introduced gives the table back. */
  lemma RemoveUndoesSet<V>(t: SymbolTable<V>, name: string, value: Option<V>)
    requires name !in t.symbols
    ensures Remove(Set(t, name, value), name) == Returned(t)
  {
    assert t.symbols[name := value] - {name} == t.symbols;
  }

  /** After a successful `remove` the name is looked up in the parent only. */
  lemma GetAfterRemove<V>(t: SymbolTable<V>, name: string)
    requires name in t.symbols
    ensures Remove(t, name).Returned?
    ensures Get(Remove(t, name).value, name) == if t.parent.Some? then Get(t.parent.value, name) else None
  {
  }

  /** An opaque handle on a context, the way a runtime value refers to the
      context that produced it. */
  datatype ContextRef = ContextRef(id: nat)

  /** An evaluation frame. The source spells the entry-position attribute
      `parant_entry_pos`. */
  datatype Context<V> = Context(
    displayName: string,
    parent: Option<Context<V>>,
    parentEntryPos: Option<Position>,
    symbolTable: SymbolTable<V>)

  /** `Context(display_name, parent, parent_entry_pos)`: keeps its arguments and
      owns a fresh, parentless symbol table. */
  function NewContext<V>(displayName: string, parent: Option<Context<V>>, parentEntryPos: Option<Position>): (c: Context<V>)
    ensures c.displayName == displayName && c.parent == parent && c.parentEntryPos == parentEntryPos
    ensures c.symbolTable.symbols == map[] && c.symbolTable.parent.None?
  {
    Context(displayName, parent, parentEntryPos, NewSymbolTable())
  }
}

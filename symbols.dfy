/**
  The assembler's symbol table: a JavaScript object used as a dictionary from names to texts.
  Its entries keep insertion order; writing an existing name replaces the text in place.
 */
module Symbols {
  import opened Results

  /** Names bound to texts, in insertion order. */
  type Table = seq<(string, string)>

  /** The names of a table, in order. */
  function Keys(t: Table): (ks: seq<string>)
    ensures |ks| == |t|
  {
    if t == [] then [] else [t[0].0] + Keys(t[1..])
  }

  /** `symbols[k]`, where `None` is JavaScript's `undefined`: the text of the first binding of `k`. */
  function Lookup(t: Table, k: string): (r: Option<string>)
    ensures r.Some? <==> k in Keys(t)
  {
    if t == [] then None
    else if t[0].0 == k then Some(t[0].1)
    else Lookup(t[1..], k)
  }

  /** No name is bound twice, as in a JavaScript object. */
  predicate UniqueKeys(t: Table) {
    t == [] || (t[0].0 !in Keys(t[1..]) && UniqueKeys(t[1..]))
  }

  /**
    `symbols[k] = v`: afterwards `k` is bound to `v` and every other name is bound as before;
    a new name goes at the end, a known one keeps its place.
   */
  function Bind(t: Table, k: string, v: string): (r: Table)
    ensures Lookup(r, k) == Some(v)
    ensures forall j | j != k :: Lookup(r, j) == Lookup(t, j)
    ensures Lookup(t, k).Some? ==> Keys(r) == Keys(t)
  {
    if t == [] then [(k, v)]
    else if t[0].0 == k then [(k, v)] + t[1..]
    else [t[0]] + Bind(t[1..], k, v)
  }

  /** A name not bound before is bound by a new entry at the end. */
  lemma {:induction false} BindAppends(t: Table, k: string, v: string)
    requires Lookup(t, k).None?
    ensures Bind(t, k, v) == t + [(k, v)]
    ensures Keys(Bind(t, k, v)) == Keys(t) + [k]
  {
    if t != [] {
      BindAppends(t[1..], k, v);
      assert t == [t[0]] + t[1..];
      assert ([t[0]] + t[1..] + [(k, v)])[1..] == t[1..] + [(k, v)];
    }
  }

  /** Binding keeps the names distinct. */
  lemma {:induction false} BindKeepsUnique(t: Table, k: string, v: string)
    requires UniqueKeys(t)
    ensures UniqueKeys(Bind(t, k, v))
  {
    if t != [] && t[0].0 != k {
      BindKeepsUnique(t[1..], k, v);
      if Lookup(t[1..], k).None? {
        BindAppends(t[1..], k, v);
      }
    }
  }

  /** The line `#define k v` of the defines header. */
  function DefineLine(k: string, v: string): string {
    "#define " + k + " " + v
  }

  /** The defines of a table: one `#define` line per binding, in table order. */
  function Defines(t: Table): seq<string> {
    seq(|t|, i requires 0 <= i < |t| => DefineLine(t[i].0, t[i].1))
  }
}

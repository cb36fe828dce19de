/**
  Texture interning: every distinct texture name gets the next `TextureId`
  the first time it is met. `Registry` is the list of distinct names in
  first-occurrence order; a name's id is its position in that list.
*/
module Interning {
  import opened Ids
  import Tail

  predicate Distinct(s: seq<string>)
  {
    forall i, j :: 0 <= i < j < |s| ==> s[i] != s[j]
  }

  /** The distinct names of `names`, each where it first occurs. */
  function Registry(names: seq<string>): (reg: seq<string>)
    ensures forall s :: s in reg <==> s in names
    ensures Distinct(reg)
  {
    if names == [] then
      []
    else
      var prev := Registry(names[..|names| - 1]);
      var s := names[|names| - 1];
      assert names == names[..|names| - 1] + [s];
      if s in prev then prev else prev + [s]
  }

  /** The first position of `x` in `s`. */
  function IndexOf(s: seq<string>, x: string): (i: nat)
    requires x in s
    ensures i < |s| && s[i] == x && x !in s[..i]
  {
    if s[0] == x then 0 else 1 + IndexOf(s[1..], x)
  }

  /** The name-to-id table (`BTreeMap<String, TextureId>`) built for a registry. */
  function NameTable(reg: seq<string>): map<string, TextureId>
  {
    map s | s in reg :: IndexOf(reg, s) as TextureId
  }

  /** The published id-to-name table (`BTreeMap<TextureId, String>`). */
  function Textures(reg: seq<string>): map<TextureId, string>
  {
    map t: TextureId | 0 <= t < |reg| as TextureId :: reg[t]
  }

  lemma IndexOfAt(s: seq<string>, i: nat)
    requires Distinct(s) && i < |s|
    ensures IndexOf(s, s[i]) == i
  {
    var k := IndexOf(s, s[i]);
    assert s[..k + 1][k] == s[i];
  }

  lemma IndexOfSnoc(s: seq<string>, y: string, x: string)
    requires x in s
    ensures IndexOf(s + [y], x) == IndexOf(s, x)
  {
    var k := IndexOf(s, x);
    assert (s + [y])[..k + 1] == s[..k + 1];
  }

  /** Meeting a name already interned changes nothing. */
  lemma RegistrySnocSeen(names: seq<string>, s: string)
    requires s in names
    ensures Registry(names + [s]) == Registry(names)
  {
    assert (names + [s])[..|names|] == names;
  }

  /** Meeting a new name appends it. */
  lemma RegistrySnocNew(names: seq<string>, s: string)
    requires s !in names
    ensures Registry(names + [s]) == Registry(names) + [s]
  {
    assert (names + [s])[..|names|] == names;
  }

  /** Interning a new name allocates the next id, `|reg|`, and leaves the others alone. */
  lemma NameTableSnoc(reg: seq<string>, s: string)
    requires s !in reg
    ensures NameTable(reg + [s]) == NameTable(reg)[s := |reg| as TextureId]
  {
    forall x | x in reg ensures IndexOf(reg + [s], x) == IndexOf(reg, x) {
      IndexOfSnoc(reg, s, x);
    }
    assert (reg + [s])[|reg|] == s;
    assert (reg + [s])[..|reg|] == reg;
  }

  /**
    Turning the name-to-id table round gives exactly the id-to-name table:
    the inversion is lossless because interning is injective.
  */
  lemma InvertNameTable(reg: seq<string>)
    requires Distinct(reg)
    ensures Tail.Invert(NameTable(reg)) == Textures(reg)
  {
    var table := NameTable(reg);
    var inv := Tail.Invert(table);
    assert inv.Keys == table.Values;
    forall t | t in inv ensures 0 <= t < |reg| as TextureId && inv[t] == reg[t] {
      assert inv[t] in table && table[inv[t]] == t;
    }
    forall t: TextureId | 0 <= t < |reg| as TextureId ensures t in inv {
      IndexOfAt(reg, t as nat);
      assert table[reg[t]] == t;
    }
  }

  /** Ids follow first occurrence: a lower id means a name met earlier. */
  lemma {:induction false} RegistryFirstOccurrence(names: seq<string>, k: nat, k': nat)
    requires k < k' < |Registry(names)|
    ensures IndexOf(names, Registry(names)[k]) < IndexOf(names, Registry(names)[k'])
  {
    var reg := Registry(names);
    var init := names[..|names| - 1];
    var s := names[|names| - 1];
    assert names == init + [s];
    var prev := Registry(init);
    if k' < |prev| {
      RegistryFirstOccurrence(init, k, k');
      IndexOfSnoc(init, s, prev[k]);
      IndexOfSnoc(init, s, prev[k']);
    } else {
      assert reg == prev + [s] && reg[k'] == s && s !in init;
      IndexOfSnoc(init, s, prev[k]);
    }
  }

  lemma {:induction false} DistinctCardinality(s: seq<string>)
    requires Distinct(s)
    ensures |set x | x in s| == |s|
  {
    if s != [] {
      var init := s[..|s| - 1];
      DistinctCardinality(init);
      assert s == init + [s[|s| - 1]];
      assert (set x | x in s) == (set x | x in init) + {s[|s| - 1]};
      assert s[|s| - 1] !in init;
    }
  }

  /** As many ids as distinct names. */
  lemma RegistrySize(names: seq<string>)
    ensures |Registry(names)| == |set s | s in names|
  {
    var reg := Registry(names);
    DistinctCardinality(reg);
    assert (set x | x in reg) == (set s | s in names);
  }

  /** One id per registered name. */
  lemma {:induction false} TexturesSize(reg: seq<string>)
    ensures |Textures(reg)| == |reg|
  {
    if reg != [] {
      var init := reg[..|reg| - 1];
      TexturesSize(init);
      assert Textures(reg) == Textures(init)[|init| as TextureId := reg[|init|]];
    }
  }
}

/** The territory colour categories (`em_app.py`, `setup_data`): pandas'
    `factorize` numbers the territory names of the zipcode table 0..n-1 in
    order of first appearance, and `cat_terr_map` maps each name to its
    number. The map is built once and only read afterwards. */
module Categories {
  import opened Seqs

  /** `pd.factorize`: one code per value, and the distinct values in order
      of first appearance; each code is the position of its value. */
  function Factorize(names: seq<string>): (result: (seq<nat>, seq<string>))
    ensures var (codes, uniques) := result;
      && NoDups(uniques)
      && (forall x :: x in uniques <==> x in names)
      && |codes| == |names|
      && forall i :: 0 <= i < |names| ==> codes[i] < |uniques| && uniques[codes[i]] == names[i]
  {
    var uniques := Distinct(names);
    (seq(|names|, i requires 0 <= i < |names| => IndexOf(uniques, names[i])), uniques)
  }

  /** `dict(zip(uniques, range(len(uniques))))` over the uniques of
      `Factorize(names)`. */
  function CategoryMap(names: seq<string>): (m: map<string, nat>)
    ensures m.Keys == set x | x in names
    ensures forall x :: x in m ==> m[x] < |Factorize(names).1|
  {
    var uniques := Factorize(names).1;
    map x | x in uniques :: IndexOf(uniques, x)
  }

  /** The map assigns every number 0..n-1 (n the number of distinct names):
      number `c` to the `c`-th distinct name. */
  lemma CategoryMapCoversRange(names: seq<string>, c: nat)
    requires c < |Factorize(names).1|
    ensures var u := Factorize(names).1;
      u[c] in CategoryMap(names) && CategoryMap(names)[u[c]] == c
  {
    var u := Factorize(names).1;
    IndexOfNoDups(u, c);
  }

  /** Different names get different numbers. */
  lemma CategoryMapInjective(names: seq<string>, a: string, b: string)
    requires a in CategoryMap(names) && b in CategoryMap(names)
    ensures CategoryMap(names)[a] == CategoryMap(names)[b] ==> a == b
  {
  }

  /** The map agrees with the codes `factorize` returns for the table it
      was built from: the category `setup_data` stores in each row is the
      one `update_zip` later looks up. */
  lemma CategoryMapMatchesCodes(names: seq<string>, i: nat)
    requires i < |names|
    ensures names[i] in CategoryMap(names)
    ensures CategoryMap(names)[names[i]] == Factorize(names).0[i]
  {
    var u := Factorize(names).1;
    assert names[i] in u;
  }

  /** Numbers follow first appearance: a name gets a smaller number than
      another exactly when it first appears earlier. */
  lemma CategoryMapFirstAppearance(names: seq<string>, a: string, b: string)
    requires a in names && b in names
    ensures CategoryMap(names)[a] < CategoryMap(names)[b]
        <==> IndexOf(names, a) < IndexOf(names, b)
  {
    DistinctKeepsFirstAppearance(names, a, b);
  }

  /** The first name of the table gets category 0. */
  lemma FirstNameIsZero(names: seq<string>)
    requires names != []
    ensures CategoryMap(names)[names[0]] == 0
  {
    var u := Factorize(names).1;
    IndexOfNoDups(u, 0);
    assert u[0] in names;
    assert names[..0] == [];
    IndexOfUnique(names, names[0], 0);
    CategoryMapFirstAppearance(names, u[0], names[0]);
  }
}

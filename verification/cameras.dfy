/** The fixed brand-to-models table of the generator (app.py:19-22) and the
    two-step uniform choice over it (app.py:44-45), with the random draws
    replaced by the indices they would have picked. */
module Cameras {

  /** One entry of the table: a maker name and the models listed under it. */
  datatype Brand = Brand(make: string, models: seq<string>)

  /** The table in the dictionary's insertion order, which is the order
      `list(camera_data.keys())` enumerates the makers in. */
  const Table: seq<Brand> := [
    Brand("SONY", ["ILCE-7M3", "ILCE-9"]),
    Brand("Canon", ["Canon EOS R5", "Canon EOS Rebel T8i"])
  ]

  /** `make` and `model` appear together in one entry of the table. */
  predicate Pairs(make: string, model: string) {
    exists b :: b in Table && b.make == make && model in b.models
  }

  /** The makers, in table order: the list `list(camera_data.keys())`
      that the maker is drawn from. */
  function Makes(): (ms: seq<string>)
    ensures ms == ["SONY", "Canon"]
  {
    seq(|Table|, i requires 0 <= i < |Table| => Table[i].make)
  }

  /** Indices that a draw of a brand and then of one of its models can yield. */
  predicate ValidPick(bi: int, mi: int) {
    0 <= bi < |Table| && 0 <= mi < |Table[bi].models|
  }

  /** The maker drawn by `random.choice(list(camera_data.keys()))`. */
  function ChooseMake(bi: nat): (make: string)
    requires bi < |Table|
    ensures make in Makes()
  {
    Table[bi].make
  }

  /** The model drawn by `random.choice(camera_data[brand])`: it is listed
      under the drawn maker and under no other maker. */
  function ChooseModel(bi: nat, mi: nat): (model: string)
    requires ValidPick(bi, mi)
    ensures Pairs(ChooseMake(bi), model)
    ensures forall j :: 0 <= j < |Table| && model in Table[j].models ==> j == bi
  {
    ModelListsDisjoint();
    Table[bi].models[mi]
  }

  /** No model name is listed under two makers, so a model never pairs
      with a foreign maker. */
  lemma ModelListsDisjoint()
    ensures forall i, j, m :: 0 <= i < |Table| && 0 <= j < |Table| && m in Table[i].models && m in Table[j].models ==> i == j
  {
  }

  /** The maker and model names are each listed once. */
  lemma TableHasNoDuplicates()
    ensures forall i, j :: 0 <= i < j < |Table| ==> Table[i].make != Table[j].make
    ensures forall b, i, j :: 0 <= b < |Table| && 0 <= i < j < |Table[b].models| ==> Table[b].models[i] != Table[b].models[j]
  {
  }

  /** Every consistent pair of the table is the outcome of some draw. */
  lemma EveryPairIsDrawable(make: string, model: string)
    requires Pairs(make, model)
    ensures exists bi: nat, mi: nat :: ValidPick(bi, mi) && ChooseMake(bi) == make && ChooseModel(bi, mi) == model
  {
    var b :| b in Table && b.make == make && model in b.models;
    var bi :| 0 <= bi < |Table| && Table[bi] == b;
    var mi :| 0 <= mi < |b.models| && b.models[mi] == model;
    assert ValidPick(bi, mi) && ChooseMake(bi) == make && ChooseModel(bi, mi) == model;
  }
}

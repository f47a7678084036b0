/** The fixed nutrition catalogue (`nutritionData`) and its lookup by name. */
module Catalogue {
  import opened Common

  /** One catalogue entry; `kind` is the product type (purée, gel, bar). Nutrients are grams, except calories (kcal). */
  datatype Food = Food(name: string, kind: string, brand: string, price: real, carbs: real, calories: real, protein: real)

  /** The three nutrients the planner adds up. */
  datatype Nutrient = Carbs | Calories | Protein

  /** How much of nutrient `n` one serving of `f` provides. */
  function Amount(f: Food, n: Nutrient): real
  {
    match n
    case Carbs => f.carbs
    case Calories => f.calories
    case Protein => f.protein
  }

  /** The catalogue, in the order the food selector lists it. */
  const Foods: seq<Food> := [
    Food("Purée nutritionnelle bio Baouw framboise, fraise, basilic", "Purée", "Baouw", 3.25, 11.0, 66.0, 0.01),
    Food("Purée nutritionnelle bio Baouw poire, pomme, menthe", "Purée", "Baouw", 2.95, 11.0, 66.0, 0.01),
    Food("Maurten Gel 100", "Gel", "Maurten", 3.6, 25.0, 100.0, 0.0),
    Food("Maurten Gel 100 CAF", "Gel", "Maurten", 4.2, 25.0, 100.0, 0.0),
    Food("Pâte de fruits Fruit'n Perf Bio Overstim", "Barre", "OVERSTIMS", 1.65, 19.0, 77.0, 0.5),
    Food("Gaufre énergétique Näak Ultra Energy saveur chocolat", "Barre", "Naak", 2.25, 17.0, 140.0, 3.0),
    Food("Gaufre énergétique Näak Ultra Energy saveur sirop erable", "Barre", "Naak", 2.25, 17.0, 140.0, 3.0)
  ]

  /** `list.find(f => f.name === name)`: the first entry with that name, if any. */
  function FindByName(list: seq<Food>, name: string): (r: Option<Food>)
    ensures r.None? <==> forall i :: 0 <= i < |list| ==> list[i].name != name
    ensures r.Some? ==> exists i :: 0 <= i < |list| && list[i] == r.value && r.value.name == name
                                    && forall j :: 0 <= j < i ==> list[j].name != name
  {
    if |list| == 0 then None
    else if list[0].name == name then Some(list[0])
    else
      var r := FindByName(list[1..], name);
      assert forall i :: 1 <= i < |list| ==> list[i] == list[1..][i - 1];
      if r.Some? then
        var i :| 0 <= i < |list[1..]| && list[1..][i] == r.value && r.value.name == name
                 && forall j :: 0 <= j < i ==> list[1..][j].name != name;
        assert list[i + 1] == r.value;
        r
      else r
  }

  /** The catalogue entry a food selector value names. */
  function Lookup(name: string): (r: Option<Food>)
    ensures r.Some? ==> r.value in Foods && r.value.name == name
    ensures r.None? <==> forall f :: f in Foods ==> f.name != name
  {
    FindByName(Foods, name)
  }

  /** No two catalogue entries share a name, so a name identifies its entry. */
  lemma NamesUnique()
    ensures forall i, j :: 0 <= i < j < |Foods| ==> Foods[i].name != Foods[j].name
  {
  }
}

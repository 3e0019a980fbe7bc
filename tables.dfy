/**
 * The converter's static unit tables: three unit-to-factor maps, their
 * union, the set of known units and the unit-to-category map. A factor
 * says how many of that unit make one of the category's reference unit
 * (metre, litre, gram), so an amount is taken to the reference unit by
 * dividing by the source factor and out of it by multiplying by the
 * destination factor. Factors are the exact decimals written in the
 * tables.
 *
 * The category tags are kept as the program assigns them: the table named
 * for weights holds the volume units (L, mL, ...) and is tagged Weight, and
 * the table named for volumes holds the mass units (g, kg, ...) and is
 * tagged Volume. Only the grouping matters to the converter.
 */
module Tables {

  datatype Category = Distance | Volume | Weight

  const BaseDistanceMap: map<string, real> := map[
    "m" := 1.0,
    "cm" := 100.0,
    "mm" := 1000.0,
    "km" := 0.001,
    "in" := 39.3701,
    "ft" := 3.280841666667,
    "yd" := 1.0936138888889999077,
    "mi" := 0.000621371
  ]

  const BaseWeightMap: map<string, real> := map[
    "L" := 1.0,
    "mL" := 1000.0,
    "floz" := 33.814,
    "cup" := 4.22675,
    "pint" := 2.11338,
    "qt" := 1.05669,
    "gal" := 0.264172
  ]

  const BaseVolumeMap: map<string, real> := map[
    "g" := 1.0,
    "kg" := 0.001,
    "mg" := 1000.0,
    "oz" := 0.035274,
    "lb" := 0.00220462
  ]

  /** All factors; where keys repeated, a later table would win. */
  const BaseMap: map<string, real> := BaseDistanceMap + BaseWeightMap + BaseVolumeMap

  /** The known units, written out; UnitsAreTableKeys shows they are
      exactly the keys of the three tables. */
  const Units: set<string> := {"m", "cm", "mm", "km", "in", "ft", "yd", "mi",
                               "L", "mL", "floz", "cup", "pint", "qt", "gal",
                               "g", "kg", "mg", "oz", "lb"}

  /** Unit to category, built table by table in the order distances,
      volumes, weights; a later entry would win on a repeated key. */
  const Categories: map<string, Category> :=
    (map d | d in BaseDistanceMap :: Distance)
    + (map v | v in BaseVolumeMap :: Volume)
    + (map w | w in BaseWeightMap :: Weight)

  /** No unit occurs in two tables. */
  lemma DistanceWeightDisjoint()
    ensures BaseDistanceMap.Keys !! BaseWeightMap.Keys
  {
  }

  lemma DistanceVolumeDisjoint()
    ensures BaseDistanceMap.Keys !! BaseVolumeMap.Keys
  {
  }

  lemma WeightVolumeDisjoint()
    ensures BaseWeightMap.Keys !! BaseVolumeMap.Keys
  {
  }

  /** The known units are the keys of the three tables together. */
  lemma UnitsAreTableKeys()
    ensures Units == BaseDistanceMap.Keys + BaseWeightMap.Keys + BaseVolumeMap.Keys
  {
  }

  /** The merged factor map is defined on exactly the known units. */
  lemma BaseMapCoversUnits()
    ensures BaseMap.Keys == Units
  {
  }

  /** The category map is defined on exactly the known units. */
  lemma CategoriesCoverUnits()
    ensures Categories.Keys == Units
  {
  }

  /** Because the tables are disjoint, the union keeps every table's own
      factor and every unit gets the tag of its own table. */
  lemma DistanceEntry(u: string)
    requires u in BaseDistanceMap
    ensures BaseMap[u] == BaseDistanceMap[u] && Categories[u] == Distance
  {
    DistanceWeightDisjoint();
    DistanceVolumeDisjoint();
  }

  lemma WeightEntry(u: string)
    requires u in BaseWeightMap
    ensures BaseMap[u] == BaseWeightMap[u] && Categories[u] == Weight
  {
    WeightVolumeDisjoint();
  }

  lemma VolumeEntry(u: string)
    requires u in BaseVolumeMap
    ensures BaseMap[u] == BaseVolumeMap[u] && Categories[u] == Volume
  {
    WeightVolumeDisjoint();
  }

  /** Every factor is strictly positive, so dividing by one is defined. */
  lemma FactorsPositive(u: string)
    requires u in Units
    ensures u in BaseMap && BaseMap[u] > 0.0
  {
    FactorIsBaseMapEntry(u);
  }

  /** The factor of a known unit, read from the table that holds it. */
  function Factor(u: string): (f: real)
    requires u in Units
    ensures f > 0.0
  {
    if u in BaseDistanceMap then BaseDistanceMap[u]
    else if u in BaseWeightMap then BaseWeightMap[u]
    else BaseVolumeMap[u]
  }

  /** The category of a known unit: the tag of the table that holds it. */
  function CategoryOf(u: string): (c: Category)
    requires u in Units
    ensures c == Distance <==> u in BaseDistanceMap
    ensures c == Volume <==> u in BaseVolumeMap
    ensures c == Weight <==> u in BaseWeightMap
  {
    if u in BaseDistanceMap then Distance
    else if u in BaseVolumeMap then Volume
    else Weight
  }

  /** Factor is the lookup in the merged factor map. */
  lemma FactorIsBaseMapEntry(u: string)
    requires u in Units
    ensures u in BaseMap && Factor(u) == BaseMap[u]
  {
    if u in BaseDistanceMap {
      DistanceEntry(u);
    } else if u in BaseWeightMap {
      WeightEntry(u);
    } else {
      VolumeEntry(u);
    }
  }

  /** CategoryOf is the lookup in the category map. */
  lemma CategoryOfIsCategoriesEntry(u: string)
    requires u in Units
    ensures u in Categories && CategoryOf(u) == Categories[u]
  {
    if u in BaseDistanceMap {
      DistanceEntry(u);
    } else if u in BaseVolumeMap {
      VolumeEntry(u);
    } else {
      WeightEntry(u);
    }
  }

  /** `x` units of factor `f` expressed in units of factor `g`. */
  function Rescale(x: real, f: real, g: real): (r: real)
    requires f > 0.0 && g > 0.0
    ensures r / g == x / f
  {
    x / f * g
  }

  lemma RescaleCompose(x: real, f: real, g: real, h: real)
    requires f > 0.0 && g > 0.0 && h > 0.0
    ensures Rescale(Rescale(x, f, g), g, h) == Rescale(x, f, h)
  {
    assert x / f * g / g == x / f;
  }

  /** The amount `amount` of `src` expressed in `dst`: through the reference
      unit, dividing by the source factor and multiplying by the destination
      factor. Both denote the same reference quantity. */
  function ConvertAmount(amount: real, src: string, dst: string): (r: real)
    requires src in Units && dst in Units
    ensures r / Factor(dst) == amount / Factor(src)
  {
    Rescale(amount, Factor(src), Factor(dst))
  }

  /** The conversion is the lookup-divide-multiply on the merged factor map. */
  lemma ConvertAmountByBaseMap(amount: real, src: string, dst: string)
    requires src in Units && dst in Units
    ensures src in BaseMap && dst in BaseMap
    ensures BaseMap[src] > 0.0 && BaseMap[dst] > 0.0
    ensures ConvertAmount(amount, src, dst) == Rescale(amount, BaseMap[src], BaseMap[dst])
  {
    FactorIsBaseMapEntry(src);
    FactorIsBaseMapEntry(dst);
  }

  /** A result that preserves the quantity is the conversion's result. */
  lemma QuantityDeterminesResult(r: real, amount: real, src: string, dst: string)
    requires src in Units && dst in Units
    requires r / Factor(dst) == amount / Factor(src)
    ensures r == ConvertAmount(amount, src, dst)
  {
    assert r == r / Factor(dst) * Factor(dst);
  }

  /** Converting a unit to itself leaves the amount unchanged. */
  lemma ConvertIdentity(amount: real, u: string)
    requires u in Units
    ensures ConvertAmount(amount, u, u) == amount
  {
  }

  /** Converting in two steps is converting in one. */
  lemma ConvertCompose(amount: real, a: string, b: string, c: string)
    requires a in Units && b in Units && c in Units
    ensures ConvertAmount(ConvertAmount(amount, a, b), b, c) == ConvertAmount(amount, a, c)
  {
    RescaleCompose(amount, Factor(a), Factor(b), Factor(c));
  }

  /** Converting there and back returns the original amount. */
  lemma ConvertRoundTrip(amount: real, a: string, b: string)
    requires a in Units && b in Units
    ensures ConvertAmount(ConvertAmount(amount, a, b), b, a) == amount
  {
    ConvertCompose(amount, a, b, a);
    ConvertIdentity(amount, a);
  }
}

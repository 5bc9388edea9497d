/** The record types of the piping report (`Material`, `Component`), the
    errors the Python code raises, and the fixed material catalogue.
    Pressures and stresses are in psi, temperatures in degrees Celsius. */
module Piping {

  datatype Option<T> = None | Some(value: T)

  /** A material. Its allowable stress `s` (psi) and its lowest service
      temperature `tMin` (degC) are attributes attached after construction
      in the source, so a material may lack either of them. */
  datatype Material = Material(name: string, s: Option<real>, tMin: Option<real>)

  /** A piping component; `kind` is the source's `type` tag and `p` the
      rating the manufacturer states (psi). */
  datatype Component = Component(
    name: string, size: string, source: string, p: real, material: Material,
    kind: string := "Fitting")

  /** The exceptions the reporting layer can raise. */
  datatype Error =
    | UnknownComponentType(tag: string)            // TypeError in pressure_rating
    | MissingAttribute(material: string, attribute: string)  // AttributeError on a material
    | ZeroDivision                                 // ZeroDivisionError in P_des / rating
    | EmptyList                                    // IndexError of result[-1] on no names

  datatype Result<T> = Ok(value: T) | Err(error: Error)

  /** A Fahrenheit reading in degrees Celsius. */
  function FahrenheitToCelsius(f: real): (c: real)
    ensures c * 9.0 / 5.0 + 32.0 == f
  {
    (f - 32.0) * 5.0 / 9.0
  }

  const SS304 := Material("304 SS", Some(20000.0), Some(FahrenheitToCelsius(-425.0)))
  const SS304L := Material("304L SS", Some(16700.0), Some(FahrenheitToCelsius(-425.0)))
  const SS316 := Material("316 SS", Some(20000.0), Some(FahrenheitToCelsius(-425.0)))
  const SS316L := Material("316L SS", Some(16700.0), Some(FahrenheitToCelsius(-425.0)))
  const Copper := Material("copper", Some(6000.0), Some(FahrenheitToCelsius(-452.0)))
  const Brass := Material("brass", Some(7300.0), Some(FahrenheitToCelsius(-325.0)))

  const Catalogue: seq<Material> := [SS304, SS304L, SS316, SS316L, Copper, Brass]

  /** Every catalogue material carries both attributes the compliance check
      reads, the names are distinct, and the floors are the Fahrenheit
      constants converted exactly. */
  lemma CatalogueComplete()
    ensures forall m :: m in Catalogue ==> m.s.Some? && m.tMin.Some?
    ensures forall i, j :: 0 <= i < j < |Catalogue| ==> Catalogue[i].name != Catalogue[j].name
    ensures SS304.tMin == SS304L.tMin == SS316.tMin == SS316L.tMin == Some(-2285.0 / 9.0)
    ensures Copper.tMin == Some(-2420.0 / 9.0) && Brass.tMin == Some(-1785.0 / 9.0)
  {
  }
}

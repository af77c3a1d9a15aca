/** The search parameters of a listing request and the allow-list of their
    names (src/fussballverein/service/suchparameter.ts). */
module Suchparameter {
  import opened Wrappers

  /** A parameter value as it arrives: a REST query string carries strings,
      a GraphQL query also numbers and booleans; a key may be present with
      the value `undefined`. */
  datatype Value = Undefined | Str(s: string) | Num(n: int) | Bool(b: bool)

  /** The parameter object as key/value pairs, in the order `Object.keys`
      reports them (integer-like keys first, then insertion order). Nothing
      modelled here depends on that order. */
  type Suchparameter = seq<(string, Value)>

  /** The fields of the TypeScript type `Suchparameter`. */
  const Felder: seq<string> :=
    ["id", "name", "gruendungsjahr", "mitgliederzahl", "liga", "ort", "land",
     "javascript", "typescript", "java", "python"]

  /** The keyword fields among them: a key names a keyword to look for. */
  const SchlagwortFelder: seq<string> := ["javascript", "typescript", "java", "python"]

  /** `suchparameterNamen`: the allow-list of parameter names. */
  const SuchparameterNamen: seq<string> :=
    ["id", "name", "gruendungsjahr", "mitgliederzahl", "liga", "ort", "land", "schlagwoerter"]

  /** `Object.keys(suchparameter)`. */
  function Keys(sp: Suchparameter): (keys: seq<string>)
    ensures |keys| == |sp|
    ensures forall i :: 0 <= i < |sp| ==> keys[i] == sp[i].0
  {
    seq(|sp|, i requires 0 <= i < |sp| => sp[i].0)
  }

  /** Property access `suchparameter[key]`; `None` when the key is absent. */
  function Get(sp: Suchparameter, key: string): (v: Option<Value>)
    ensures v.Some? <==> key in Keys(sp)
    ensures v.Some? ==> (key, v.value) in sp
  {
    if |sp| == 0 then None
    else if sp[0].0 == key then Some(sp[0].1)
    else Get(sp[1..], key)
  }

  /** The allow-list names eight distinct keys. */
  lemma NamenDistinct()
    ensures |SuchparameterNamen| == 8
    ensures forall i, j :: 0 <= i < j < |SuchparameterNamen| ==> SuchparameterNamen[i] != SuchparameterNamen[j]
  {
  }

  /** How the allow-list relates to the fields of `Suchparameter`: every
      field that is not a keyword is listed, `schlagwoerter` is listed
      without being a field, and no keyword field is listed. */
  lemma NamenCoverFelder()
    ensures forall f :: f in Felder && f !in SchlagwortFelder ==> f in SuchparameterNamen
    ensures "schlagwoerter" in SuchparameterNamen && "schlagwoerter" !in Felder
    ensures forall f :: f in SchlagwortFelder ==> f in Felder && f !in SuchparameterNamen
  {
  }
}

/** The deterministic identifiers of the seeded catalogue: `prefix_code`, with one prefix
    per table (specialties, services, amenities), and the test of whether an id is one of
    them. */
module SeedIds {
  import Text
  import Seqs

  datatype SeedPrefix = Spec | Serv | Amen

  function PrefixText(p: SeedPrefix): (s: string)
    ensures |s| == 4
  {
    match p
    case Spec => "spec"
    case Serv => "serv"
    case Amen => "amen"
  }

  /** `generateSeedId`: the prefix, an underscore, then the code. */
  function GenerateSeedId(p: SeedPrefix, code: string): (id: string)
    ensures |id| == |code| + 5
    ensures Text.IsPrefix(PrefixText(p) + "_", id) && id[5..] == code
  {
    PrefixText(p) + "_" + code
  }

  /** An id gives back its prefix and its code, so different (prefix, code) pairs give
      different ids. */
  lemma GenerateSeedIdInjective(p: SeedPrefix, c: string, q: SeedPrefix, d: string)
    requires GenerateSeedId(p, c) == GenerateSeedId(q, d)
    ensures p == q && c == d
  {
    var id := GenerateSeedId(p, c);
    assert id[..4] == PrefixText(p) && id[..4] == PrefixText(q);
  }

  const SpecialtyCodes: seq<string> := [
    "cabeleireiro", "barbeiro", "manicure", "esteticista", "massagista", "designer_sobrancelhas",
    "maquiador", "depilador", "podologo", "lash_designer"]

  const AmenityCodes: seq<string> := [
    "wifi", "parking", "coffee", "ac", "snacks", "waiting-room", "accessibility"]

  const ServiceCodes: seq<string> := [
    "corte_feminino", "corte_masculino", "corte_infantil", "coloracao", "mechas", "hidratacao",
    "escova", "penteado", "progressiva", "botox_capilar",
    "corte_barba", "barba", "corte_navalha", "pigmentacao_barba", "relaxamento_barba",
    "manicure", "pedicure", "manicure_pedicure", "unha_gel", "alongamento_unhas", "unhas_decoradas",
    "limpeza_pele", "peeling", "drenagem_linfatica", "massagem_modeladora", "tratamento_acne",
    "massagem_relaxante", "massagem_terapeutica", "quick_massage", "massagem_pedras_quentes",
    "design_sobrancelhas", "micropigmentacao", "henna",
    "maquiagem_social", "maquiagem_noiva", "automaquiagem",
    "depilacao_cera", "depilacao_laser", "depilacao_luz_pulsada",
    "podologia", "tratamento_calos", "tratamento_unhas_encravadas",
    "extensao_cilios", "lifting_cilios"]

  function CodesOf(p: SeedPrefix): seq<string> {
    match p
    case Spec => SpecialtyCodes
    case Serv => ServiceCodes
    case Amen => AmenityCodes
  }

  /** An id table: the id of every code of the table, in table order. */
  function IdsOf(p: SeedPrefix): (ids: seq<string>)
    ensures |ids| == |CodesOf(p)|
    ensures forall i :: 0 <= i < |ids| ==> ids[i] == GenerateSeedId(p, CodesOf(p)[i])
  {
    seq(|CodesOf(p)|, i requires 0 <= i < |CodesOf(p)| => GenerateSeedId(p, CodesOf(p)[i]))
  }

  /** `getSpecialtyIdByCode`, `getServiceIdByCode`, `getAmenityIdByCode`. */
  function GetSpecialtyIdByCode(code: string): (id: string)
    ensures id == GenerateSeedId(Spec, code)
    ensures code in SpecialtyCodes ==> id in IdsOf(Spec)
  {
    CodeInTable(Spec, code);
    GenerateSeedId(Spec, code)
  }

  function GetServiceIdByCode(code: string): (id: string)
    ensures id == GenerateSeedId(Serv, code)
    ensures code in ServiceCodes ==> id in IdsOf(Serv)
  {
    CodeInTable(Serv, code);
    GenerateSeedId(Serv, code)
  }

  function GetAmenityIdByCode(code: string): (id: string)
    ensures id == GenerateSeedId(Amen, code)
    ensures code in AmenityCodes ==> id in IdsOf(Amen)
  {
    CodeInTable(Amen, code);
    GenerateSeedId(Amen, code)
  }

  lemma CodeInTable(p: SeedPrefix, code: string)
    ensures code in CodesOf(p) ==> GenerateSeedId(p, code) in IdsOf(p)
  {
    if code in CodesOf(p) {
      var i :| 0 <= i < |CodesOf(p)| && CodesOf(p)[i] == code;
      assert IdsOf(p)[i] == GenerateSeedId(p, code);
    }
  }

  /** `isSeedId`: membership in the three id tables together, that is in the table of
      some prefix. */
  function IsSeedId(id: string): (b: bool)
    ensures b <==> exists p: SeedPrefix :: id in IdsOf(p)
  {
    Seqs.InConcat3(IdsOf(Spec), IdsOf(Serv), IdsOf(Amen), id);
    id in IdsOf(Spec) + IdsOf(Serv) + IdsOf(Amen)
  }

  /** Membership in one id table, whatever its codes: the table's prefix, an underscore
      and one of its codes. */
  lemma InTableIff(p: SeedPrefix, codes: seq<string>, ids: seq<string>, id: string)
    requires |ids| == |codes|
    requires forall i :: 0 <= i < |ids| ==> ids[i] == GenerateSeedId(p, codes[i])
    ensures id in ids <==> Text.IsPrefix(PrefixText(p) + "_", id) && id[5..] in codes
  {
    if id in ids {
      var i :| 0 <= i < |ids| && ids[i] == id;
      assert id[5..] == codes[i];
    }
    if Text.IsPrefix(PrefixText(p) + "_", id) && id[5..] in codes {
      var i :| 0 <= i < |codes| && codes[i] == id[5..];
      assert ids[i] == id by {
        assert id == id[..5] + id[5..];
      }
    }
  }

  /** Under its own prefix, an id is in a table exactly when its code is. */
  lemma InTable(p: SeedPrefix, id: string)
    ensures id in IdsOf(p) <==> Text.IsPrefix(PrefixText(p) + "_", id) && id[5..] in CodesOf(p)
  {
    InTableIff(p, CodesOf(p), IdsOf(p), id);
  }

  /** An id is a seed id exactly when it is some table's prefix, an underscore and one of
      that table's codes. */
  lemma IsSeedIdIff(id: string)
    ensures IsSeedId(id) <==> exists p: SeedPrefix :: Text.IsPrefix(PrefixText(p) + "_", id) && id[5..] in CodesOf(p)
  {
    var a, b, c := IdsOf(Spec), IdsOf(Serv), IdsOf(Amen);
    Seqs.InConcat3(a, b, c, id);
    InTable(Spec, id);
    InTable(Serv, id);
    InTable(Amen, id);
  }

  /** Under a given table's prefix, an id is a seed id exactly when the rest is one of that
      table's codes: a service-prefixed id never counts because of a specialty code. */
  lemma SeedIdUnderPrefix(p: SeedPrefix, id: string)
    requires Text.IsPrefix(PrefixText(p) + "_", id)
    ensures IsSeedId(id) <==> id[5..] in CodesOf(p)
  {
    var a, b, c := IdsOf(Spec), IdsOf(Serv), IdsOf(Amen);
    Seqs.InConcat3(a, b, c, id);
    InTable(p, id);
    forall q: SeedPrefix | q != p ensures id !in IdsOf(q) {
      InTable(q, id);
      if Text.IsPrefix(PrefixText(q) + "_", id) {
        PrefixesDiffer(p, q, id);
      }
    }
  }

  /** No id carries two different table prefixes. */
  lemma PrefixesDiffer(p: SeedPrefix, q: SeedPrefix, id: string)
    requires Text.IsPrefix(PrefixText(p) + "_", id) && Text.IsPrefix(PrefixText(q) + "_", id)
    ensures p == q
  {
    assert PrefixText(q) == id[..4] == PrefixText(p);
  }
}

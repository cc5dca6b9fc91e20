/** The built-in catalogue of specialties (especialidades) and the services each one
    offers, and the lookup of a specialty's services. `professions` and
    `getServicesByProfession` are the older names of the same table and lookup. */
module Professions {
  import Seqs

  datatype Especialidade = Especialidade(id: string, name: string, icon: string)

  datatype Service = Service(id: string, name: string, especialidadeIds: seq<string>)

  const Especialidades: seq<Especialidade> := [
    Especialidade("spec_cabeleireiro", "Cabeleireiro(a)", "✂️"),
    Especialidade("spec_barbeiro", "Barbeiro(a)", "💈"),
    Especialidade("spec_manicure", "Manicure", "💅"),
    Especialidade("spec_esteticista", "Esteticista", "✨"),
    Especialidade("spec_massagista", "Massagista", "💆"),
    Especialidade("spec_designer_sobrancelhas", "Designer de Sobrancelhas", "👁️"),
    Especialidade("spec_maquiador", "Maquiador(a)", "💄"),
    Especialidade("spec_depilador", "Depilador(a)", "🌸"),
    Especialidade("spec_podologo", "Podólogo(a)", "🦶"),
    Especialidade("spec_lash_designer", "Lash Designer", "👁️‍🗨️")
  ]

  const Services: seq<Service> := [
    Service("corte-cabelo", "Corte de Cabelo", ["spec_cabeleireiro"]),
    Service("escova", "Escova", ["spec_cabeleireiro"]),
    Service("coloracao", "Coloração", ["spec_cabeleireiro"]),
    Service("hidratacao", "Hidratação", ["spec_cabeleireiro"]),
    Service("progressiva", "Progressiva", ["spec_cabeleireiro"]),
    Service("luzes", "Luzes / Mechas", ["spec_cabeleireiro"]),
    Service("penteado", "Penteado", ["spec_cabeleireiro", "spec_maquiador"]),
    Service("tratamento-capilar", "Tratamento Capilar", ["spec_cabeleireiro"]),
    Service("corte-barba", "Corte de Barba", ["spec_barbeiro"]),
    Service("corte-masculino", "Corte Masculino", ["spec_barbeiro", "spec_cabeleireiro"]),
    Service("barba-completa", "Barba Completa", ["spec_barbeiro"]),
    Service("sobrancelha-masc", "Sobrancelha Masculina", ["spec_barbeiro"]),
    Service("pigmentacao-barba", "Pigmentação de Barba", ["spec_barbeiro"]),
    Service("manicure-simples", "Manicure Simples", ["spec_manicure"]),
    Service("pedicure", "Pedicure", ["spec_manicure"]),
    Service("esmaltacao-gel", "Esmaltação em Gel", ["spec_manicure"]),
    Service("alongamento-unhas", "Alongamento de Unhas", ["spec_manicure"]),
    Service("nail-art", "Nail Art", ["spec_manicure"]),
    Service("spa-maos", "Spa das Mãos", ["spec_manicure"]),
    Service("limpeza-pele", "Limpeza de Pele", ["spec_esteticista"]),
    Service("peeling", "Peeling", ["spec_esteticista"]),
    Service("microagulhamento", "Microagulhamento", ["spec_esteticista"]),
    Service("radiofrequencia", "Radiofrequência", ["spec_esteticista"]),
    Service("drenagem-facial", "Drenagem Facial", ["spec_esteticista"]),
    Service("botox", "Aplicação de Botox", ["spec_esteticista"]),
    Service("massagem-relaxante", "Massagem Relaxante", ["spec_massagista"]),
    Service("massagem-modeladora", "Massagem Modeladora", ["spec_massagista"]),
    Service("drenagem-linfatica", "Drenagem Linfática", ["spec_massagista"]),
    Service("quick-massage", "Quick Massage", ["spec_massagista"]),
    Service("pedras-quentes", "Massagem com Pedras Quentes", ["spec_massagista"]),
    Service("design-sobrancelha", "Design de Sobrancelha", ["spec_designer_sobrancelhas"]),
    Service("micropigmentacao", "Micropigmentação", ["spec_designer_sobrancelhas"]),
    Service("henna-sobrancelha", "Henna de Sobrancelha", ["spec_designer_sobrancelhas"]),
    Service("brow-lamination", "Brow Lamination", ["spec_designer_sobrancelhas"]),
    Service("maquiagem-social", "Maquiagem Social", ["spec_maquiador"]),
    Service("maquiagem-noiva", "Maquiagem de Noiva", ["spec_maquiador"]),
    Service("maquiagem-artistica", "Maquiagem Artística", ["spec_maquiador"]),
    Service("automaquiagem", "Aula de Automaquiagem", ["spec_maquiador"]),
    Service("depilacao-cera", "Depilação com Cera", ["spec_depilador"]),
    Service("depilacao-laser", "Depilação a Laser", ["spec_depilador"]),
    Service("depilacao-linha", "Depilação com Linha", ["spec_depilador"]),
    Service("podologia", "Podologia", ["spec_podologo"]),
    Service("tratamento-unha", "Tratamento de Unha Encravada", ["spec_podologo"]),
    Service("reflexologia", "Reflexologia Podal", ["spec_podologo"]),
    Service("extensao-cilios", "Extensão de Cílios", ["spec_lash_designer"]),
    Service("lash-lifting", "Lash Lifting", ["spec_lash_designer"]),
    Service("manutencao-cilios", "Manutenção de Cílios", ["spec_lash_designer"])
  ]

  /** The services of a catalogue that list the given specialty, in catalogue order. */
  function ServicesOf(catalogue: seq<Service>, especialidadeId: string): (r: seq<Service>)
    ensures forall s :: s in r <==> s in catalogue && especialidadeId in s.especialidadeIds
    ensures Seqs.SubsequenceOf(r, catalogue)
    ensures (forall s :: s in catalogue ==> especialidadeId !in s.especialidadeIds) ==> r == []
  {
    var p := (s: Service) => especialidadeId in s.especialidadeIds;
    Seqs.FilterIsSubsequence(catalogue, p);
    var r := Seqs.Filter(catalogue, p);
    assert |r| > 0 ==> r[0] in r;
    r
  }

  /** `getServicesByEspecialidade`: the built-in services offered under the specialty, in
      table order. */
  function GetServicesByEspecialidade(especialidadeId: string): (r: seq<Service>)
    ensures forall s :: s in r <==> s in Services && especialidadeId in s.especialidadeIds
    ensures Seqs.SubsequenceOf(r, Services)
  {
    ServicesOf(Services, especialidadeId)
  }

  /** `professions`, the older name of the specialty table. */
  const Professions: seq<Especialidade> := Especialidades

  /** `getServicesByProfession`, the older name of the lookup. */
  function GetServicesByProfession(especialidadeId: string): (r: seq<Service>)
    ensures forall s :: s in r <==> s in Services && especialidadeId in s.especialidadeIds
  {
    GetServicesByEspecialidade(especialidadeId)
  }

  /** A service that lists several specialties is offered under each of them (as
      "Penteado" is under both hairdresser and make-up artist). */
  lemma SharedServiceUnderEach(catalogue: seq<Service>, s: Service, a: string, b: string)
    requires s in catalogue && a in s.especialidadeIds && b in s.especialidadeIds
    ensures s in ServicesOf(catalogue, a) && s in ServicesOf(catalogue, b)
  {
  }
}

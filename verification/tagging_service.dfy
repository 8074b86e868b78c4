/** Institution-to-tag lookup of the consultation platform.

    The tagging service turns the name of the federal office that published a
    consultation into topic tags. The vocabulary is the fixed list `TAGS`. The
    lookup is a table of arms tried in order, each keyed by one exact
    institution name; the first arm whose name equals the input gives the tags,
    and a name no arm carries yields the sentinel `Unmatched` instead of a list.

    `TAGS` is the service's own constant. The enumeration `Tag`, its order
    `Vocabulary` and the map `Slug` are a device for the proofs: the table's
    tag lists are written as topics, so that they are checked once against the
    vocabulary, and `TagsAreSlugs` ties the three back to `TAGS`. The tag
    entities of the persistence layer are not modelled. */
module TaggingService {
  import opened Wrappers

  /** The topics of the vocabulary, one constructor per slug. */
  datatype Tag =
      Energie
    | Bildung
    | Forschung
    | Informatik
    | Landwirtschaft
    | Wirtschaft
    | Finanzen
    | Gesundheit
    | Kultur
    | Verteidigung
    | Sicherheit
    | Recht
    | Verkehr
    | Umwelt
    | Kommunikation
    | Migration
    | Sport
    | Versicherung
    | Raumordnung
    | Diplomatie

  /** The fixed vocabulary of slugs, in its declared order. */
  const TAGS: seq<string> := [
    "energie", "bildung", "forschung", "informatik", "landwirtschaft",
    "wirtschaft", "finanzen", "gesundheit", "kultur", "verteidigung",
    "sicherheit", "recht", "verkehr", "umwelt", "kommunikation", "migration",
    "sport", "versicherung", "raumordnung", "diplomatie"
  ]

  /** The topics in the order of `TAGS`. */
  const Vocabulary: seq<Tag> := [
    Energie, Bildung, Forschung, Informatik, Landwirtschaft, Wirtschaft,
    Finanzen, Gesundheit, Kultur, Verteidigung, Sicherheit, Recht, Verkehr,
    Umwelt, Kommunikation, Migration, Sport, Versicherung, Raumordnung,
    Diplomatie
  ]

  /** The slug the service uses for a topic. */
  function Slug(t: Tag): string {
    match t
    case Energie => "energie"
    case Bildung => "bildung"
    case Forschung => "forschung"
    case Informatik => "informatik"
    case Landwirtschaft => "landwirtschaft"
    case Wirtschaft => "wirtschaft"
    case Finanzen => "finanzen"
    case Gesundheit => "gesundheit"
    case Kultur => "kultur"
    case Verteidigung => "verteidigung"
    case Sicherheit => "sicherheit"
    case Recht => "recht"
    case Verkehr => "verkehr"
    case Umwelt => "umwelt"
    case Kommunikation => "kommunikation"
    case Migration => "migration"
    case Sport => "sport"
    case Versicherung => "versicherung"
    case Raumordnung => "raumordnung"
    case Diplomatie => "diplomatie"
  }

  /** The topic a slug names, if any. */
  function TagOfSlug(s: string): Option<Tag> {
    match s
    case "energie" => Some(Energie)
    case "bildung" => Some(Bildung)
    case "forschung" => Some(Forschung)
    case "informatik" => Some(Informatik)
    case "landwirtschaft" => Some(Landwirtschaft)
    case "wirtschaft" => Some(Wirtschaft)
    case "finanzen" => Some(Finanzen)
    case "gesundheit" => Some(Gesundheit)
    case "kultur" => Some(Kultur)
    case "verteidigung" => Some(Verteidigung)
    case "sicherheit" => Some(Sicherheit)
    case "recht" => Some(Recht)
    case "verkehr" => Some(Verkehr)
    case "umwelt" => Some(Umwelt)
    case "kommunikation" => Some(Kommunikation)
    case "migration" => Some(Migration)
    case "sport" => Some(Sport)
    case "versicherung" => Some(Versicherung)
    case "raumordnung" => Some(Raumordnung)
    case "diplomatie" => Some(Diplomatie)
    case _ => None
  }

  /** No element occurs twice in `s`. */
  predicate NoDuplicates<X(==)>(s: seq<X>) {
    forall i, j :: 0 <= i < j < |s| ==> s[i] != s[j]
  }

  /** A list the lookup may hand out: slugs of the vocabulary, each at most once. */
  predicate ValidTagList(s: seq<string>) {
    (forall i :: 0 <= i < |s| ==> s[i] in TAGS) && NoDuplicates(s)
  }

  /** Every topic's slug names the topic back. */
  lemma SlugNamesTag()
    ensures forall t :: TagOfSlug(Slug(t)) == Some(t)
  {
    forall t ensures TagOfSlug(Slug(t)) == Some(t) {
      match t
      case Energie => assert Slug(Energie) == "energie";
      case Bildung => assert Slug(Bildung) == "bildung";
      case Forschung => assert Slug(Forschung) == "forschung";
      case Informatik => assert Slug(Informatik) == "informatik";
      case Landwirtschaft => assert Slug(Landwirtschaft) == "landwirtschaft";
      case Wirtschaft => assert Slug(Wirtschaft) == "wirtschaft";
      case Finanzen => assert Slug(Finanzen) == "finanzen";
      case Gesundheit => assert Slug(Gesundheit) == "gesundheit";
      case Kultur => assert Slug(Kultur) == "kultur";
      case Verteidigung => assert Slug(Verteidigung) == "verteidigung";
      case Sicherheit => assert Slug(Sicherheit) == "sicherheit";
      case Recht => assert Slug(Recht) == "recht";
      case Verkehr => assert Slug(Verkehr) == "verkehr";
      case Umwelt => assert Slug(Umwelt) == "umwelt";
      case Kommunikation => assert Slug(Kommunikation) == "kommunikation";
      case Migration => assert Slug(Migration) == "migration";
      case Sport => assert Slug(Sport) == "sport";
      case Versicherung => assert Slug(Versicherung) == "versicherung";
      case Raumordnung => assert Slug(Raumordnung) == "raumordnung";
      case Diplomatie => assert Slug(Diplomatie) == "diplomatie";
    }
  }

  /** A string that names a topic is that topic's slug. */
  lemma NamedTagHasSlug()
    ensures forall s :: TagOfSlug(s).Some? ==> Slug(TagOfSlug(s).value) == s
  {
    forall s | TagOfSlug(s).Some? ensures Slug(TagOfSlug(s).value) == s {
      if s == "energie" { assert TagOfSlug(s) == Some(Energie); }
      else if s == "bildung" { assert TagOfSlug(s) == Some(Bildung); }
      else if s == "forschung" { assert TagOfSlug(s) == Some(Forschung); }
      else if s == "informatik" { assert TagOfSlug(s) == Some(Informatik); }
      else if s == "landwirtschaft" { assert TagOfSlug(s) == Some(Landwirtschaft); }
      else if s == "wirtschaft" { assert TagOfSlug(s) == Some(Wirtschaft); }
      else if s == "finanzen" { assert TagOfSlug(s) == Some(Finanzen); }
      else if s == "gesundheit" { assert TagOfSlug(s) == Some(Gesundheit); }
      else if s == "kultur" { assert TagOfSlug(s) == Some(Kultur); }
      else if s == "verteidigung" { assert TagOfSlug(s) == Some(Verteidigung); }
      else if s == "sicherheit" { assert TagOfSlug(s) == Some(Sicherheit); }
      else if s == "recht" { assert TagOfSlug(s) == Some(Recht); }
      else if s == "verkehr" { assert TagOfSlug(s) == Some(Verkehr); }
      else if s == "umwelt" { assert TagOfSlug(s) == Some(Umwelt); }
      else if s == "kommunikation" { assert TagOfSlug(s) == Some(Kommunikation); }
      else if s == "migration" { assert TagOfSlug(s) == Some(Migration); }
      else if s == "sport" { assert TagOfSlug(s) == Some(Sport); }
      else if s == "versicherung" { assert TagOfSlug(s) == Some(Versicherung); }
      else if s == "raumordnung" { assert TagOfSlug(s) == Some(Raumordnung); }
      else if s == "diplomatie" { assert TagOfSlug(s) == Some(Diplomatie); }
      else { assert false; }
    }
  }

  /** `Slug` and `TagOfSlug` are inverse: every topic's slug names it back, and
      a string that names a topic is that topic's slug. */
  lemma SlugRoundTrip()
    ensures forall t :: TagOfSlug(Slug(t)) == Some(t)
    ensures forall s :: TagOfSlug(s).Some? ==> Slug(TagOfSlug(s).value) == s
  {
    SlugNamesTag();
    NamedTagHasSlug();
  }

  /** The place of a topic in the vocabulary. */
  function Position(t: Tag): (k: nat)
    ensures k < |Vocabulary| && Vocabulary[k] == t
  {
    match t
    case Energie => 0
    case Bildung => 1
    case Forschung => 2
    case Informatik => 3
    case Landwirtschaft => 4
    case Wirtschaft => 5
    case Finanzen => 6
    case Gesundheit => 7
    case Kultur => 8
    case Verteidigung => 9
    case Sicherheit => 10
    case Recht => 11
    case Verkehr => 12
    case Umwelt => 13
    case Kommunikation => 14
    case Migration => 15
    case Sport => 16
    case Versicherung => 17
    case Raumordnung => 18
    case Diplomatie => 19
  }

  /** The vocabulary lists every topic once: position and entry are inverse. */
  lemma VocabularyPositions()
    ensures forall i :: 0 <= i < |Vocabulary| ==> Position(Vocabulary[i]) == i
  {
    forall i | 0 <= i < |Vocabulary| ensures Position(Vocabulary[i]) == i {
      if i == 0 { assert Vocabulary[0] == Energie; }
      else if i == 1 { assert Vocabulary[1] == Bildung; }
      else if i == 2 { assert Vocabulary[2] == Forschung; }
      else if i == 3 { assert Vocabulary[3] == Informatik; }
      else if i == 4 { assert Vocabulary[4] == Landwirtschaft; }
      else if i == 5 { assert Vocabulary[5] == Wirtschaft; }
      else if i == 6 { assert Vocabulary[6] == Finanzen; }
      else if i == 7 { assert Vocabulary[7] == Gesundheit; }
      else if i == 8 { assert Vocabulary[8] == Kultur; }
      else if i == 9 { assert Vocabulary[9] == Verteidigung; }
      else if i == 10 { assert Vocabulary[10] == Sicherheit; }
      else if i == 11 { assert Vocabulary[11] == Recht; }
      else if i == 12 { assert Vocabulary[12] == Verkehr; }
      else if i == 13 { assert Vocabulary[13] == Umwelt; }
      else if i == 14 { assert Vocabulary[14] == Kommunikation; }
      else if i == 15 { assert Vocabulary[15] == Migration; }
      else if i == 16 { assert Vocabulary[16] == Sport; }
      else if i == 17 { assert Vocabulary[17] == Versicherung; }
      else if i == 18 { assert Vocabulary[18] == Raumordnung; }
      else if i == 19 { assert Vocabulary[19] == Diplomatie; }
    }
  }

  /** `TAGS` lists the slug of every topic, in the order of `Vocabulary`. */
  lemma TagsAreSlugs()
    ensures |TAGS| == |Vocabulary| == 20
    ensures forall i :: 0 <= i < 20 ==> TAGS[i] == Slug(Vocabulary[i])
  {
    forall i | 0 <= i < |TAGS| ensures TAGS[i] == Slug(Vocabulary[i]) {
      if i == 0 { assert TAGS[0] == "energie"; }
      else if i == 1 { assert TAGS[1] == "bildung"; }
      else if i == 2 { assert TAGS[2] == "forschung"; }
      else if i == 3 { assert TAGS[3] == "informatik"; }
      else if i == 4 { assert TAGS[4] == "landwirtschaft"; }
      else if i == 5 { assert TAGS[5] == "wirtschaft"; }
      else if i == 6 { assert TAGS[6] == "finanzen"; }
      else if i == 7 { assert TAGS[7] == "gesundheit"; }
      else if i == 8 { assert TAGS[8] == "kultur"; }
      else if i == 9 { assert TAGS[9] == "verteidigung"; }
      else if i == 10 { assert TAGS[10] == "sicherheit"; }
      else if i == 11 { assert TAGS[11] == "recht"; }
      else if i == 12 { assert TAGS[12] == "verkehr"; }
      else if i == 13 { assert TAGS[13] == "umwelt"; }
      else if i == 14 { assert TAGS[14] == "kommunikation"; }
      else if i == 15 { assert TAGS[15] == "migration"; }
      else if i == 16 { assert TAGS[16] == "sport"; }
      else if i == 17 { assert TAGS[17] == "versicherung"; }
      else if i == 18 { assert TAGS[18] == "raumordnung"; }
      else if i == 19 { assert TAGS[19] == "diplomatie"; }
    }
  }

  /** Every topic's slug is in `TAGS`, and no slug is there twice. */
  lemma VocabularyMatchesTags()
    ensures |TAGS| == 20
    ensures forall t :: Slug(t) in TAGS
    ensures NoDuplicates(TAGS)
  {
    SlugRoundTrip();
    TagsAreSlugs();
    VocabularyPositions();
    forall t ensures Slug(t) in TAGS {
      assert TAGS[Position(t)] == Slug(t);
    }
    forall i, j | 0 <= i < j < |TAGS| ensures TAGS[i] != TAGS[j] {
      assert TagOfSlug(TAGS[i]) == Some(Vocabulary[i]);
      assert TagOfSlug(TAGS[j]) == Some(Vocabulary[j]);
    }
  }

  /** The slugs of a list of topics, in order. */
  function Slugs(tags: seq<Tag>): (r: seq<string>)
    ensures |r| == |tags|
    ensures forall i :: 0 <= i < |tags| ==> r[i] == Slug(tags[i])
  {
    if |tags| == 0 then [] else [Slug(tags[0])] + Slugs(tags[1..])
  }

  /** Topics without repetition give slugs of the vocabulary without repetition. */
  lemma SlugsValid(tags: seq<Tag>)
    requires NoDuplicates(tags)
    ensures ValidTagList(Slugs(tags))
  {
    VocabularyMatchesTags();
    SlugRoundTrip();
    var r := Slugs(tags);
    forall i, j | 0 <= i < j < |r| ensures r[i] != r[j] {
      assert TagOfSlug(r[i]) == Some(tags[i]) && TagOfSlug(r[j]) == Some(tags[j]);
    }
  }

  /** The number of arms of the table. */
  const ArmCount: nat := 126

  /** A position in the table. */
  type ArmIndex = i: nat | i < ArmCount

  /** The institution name of arm `i`. */
  function Institution(i: ArmIndex): string {
    match i
    case 0 => "Bundesamt für Energie"
    case 1 => "Parlamentsdienste"
    case 2 => "Staatssekretariat für Bildung, Forschung und Innovation"
    case 3 => "Staatssekretariat für Wirtschaft"
    case 4 => "Bundesamt für Gesundheit"
    case 5 => "Bundesamt für Kultur"
    case 6 => "Bundesamt für Bevölkerungsschutz"
    case 7 => "Eidgenössische Steuerverwaltung"
    case 8 => "Bundesamt für Sozialversicherungen"
    case 9 => "Bundesamt für Lebensmittelsicherheit und Veterinärwesen"
    case 10 => "Bundesamt für Justiz"
    case 11 => "Eidgenössisches Institut für Geistiges Eigentum"
    case 12 => "Bundesamt für Verkehr"
    case 13 => "Generalsekretariat VBS"
    case 14 => "Bundesamt für Strassen"
    case 15 => "Bundesamt für Raumentwicklung"
    case 16 => "Bundesamt für wirtschaftliche Landesversorgung"
    case 17 => "Bundesamt für Landestopografie"
    case 18 => "Bundesamt für Umwelt"
    case 19 => "Dienst Überwachung Post- und Fernmeldeverkehr"
    case 20 => "Nachrichtendienst des Bundes"
    case 21 => "Staatssekretariat für internationale Finanzfragen"
    case 22 => "Bundesamt für Kommunikation"
    case 23 => "Generalsekretariat EFD"
    case 24 => "Staatssekretariat für Migration"
    case 25 => "Bundesamt für Polizei"
    case 26 => "Eidgenössische Zollverwaltung"
    case 27 => "Bundeskanzlei"
    case 28 => "Bundesamt für Landwirtschaft"
    case 29 => "Direktion für Völkerrecht"
    case 30 => "Eidgenössische Finanzverwaltung"
    case 31 => "Bundesamt für Sport"
    case 32 => "Schweizerische Agentur für Innovationsförderung"
    case 33 => "Bundesamt für Zoll und Grenzsicherheit"
    case 34 => "Staatspolitische Kommission, Sekretariat"
    case 35 => "Kommission für Wirtschaft und Abgaben"
    case 36 => "verteidigung"
    case 37 => "Sicherheitspolitische Kommission"
    case 38 => "Bundesamt für Wohnungswesen"
    case 39 => "Schweizerische Bundeskanzlei, Sektion Recht, Sekretariat"
    case 40 => "Kommission für soziale Sicherheit und Gesundheit"
    case 41 => "Bundesamt für Zivilluftfahrt"
    case 42 => "Generalsekretariat UVEK"
    case 43 => "Kommission für Verkehr und Fernmeldewesen"
    case 44 => "Amt für das Handelsregister"
    case 45 => "Eidgenössisches Departement des Innern"
    case 46 => "Kommission für Rechtsfragen"
    case 47 => "Bundesamt für Statistik"
    case 48 => "Schweizerisches Institut für Rechtsvergleichung"
    case 49 => "Bundesamt für Metrologie"
    case 50 => "Direktion für Entwicklung und Zusammenarbeit"
    case 51 => "Kommission für Wissenschaft, Bildung und Kultur"
    case 52 => "Kommission für Wirtschaft und Abgaben des Ständerates"
    case 53 => "Staatspolitische Kommission des Ständerates"
    case 54 => "Kommission für Umwelt, Raumplanung und Energie des Nationalrates"
    case 55 => "Staatspolitische Kommission des Nationalrates"
    case 56 => "Bundesamt für Zivildienst"
    case 57 => "Bundesamt für Meteorologie und Klimatologie"
    case 58 => "Kommission für Umwelt, Raumplanung und Energie"
    case 59 => "Eidgenössisches Departement für Wirtschaft, Bildung und Forschung"
    case 60 => "Schweizerisches Heilmittelinstitut"
    case 61 => "Kommission für soziale Sicherheit und Gesundheit des Nationalrates"
    case 62 => "Eidgenössisches Departement für Verteidigung, Bevölkerungsschutz und Sport"
    case 63 => "Eidgenössisches Departement für Umwelt, Verkehr, Energie und Kommunikation"
    case 64 => "Direktion für Ressourcen"
    case 65 => "Eidgenössisches Finanzdepartement"
    case 66 => "Kommission für Rechtsfragen des Nationalrates"
    case 67 => "Informatik Service Center ISC-EJPD"
    case 68 => "Kommission für Wirtschaft und Abgaben des Nationalrates"
    case 69 => "Eidgenössisches Amt für das Zivilstandswesen"
    case 70 => "Eidgenössische Finanzmarktaufsicht"
    case 71 => "Bundesamt für Bauten und Logistik"
    case 72 => "Kommission für Umwelt, Raumplanung und Energie des Ständerats"
    case 73 => "Parlamentsdienste, Sekretariat der Kommissionen für soziale Sicherheit und Gesundheit"
    case 74 => "Bundesamt für Migration"
    case 75 => "Informatiksteuerungsorgan des Bundes"
    case 76 => "Eidgenössische Spielbankenkommission"
    case 77 => "Eidgenössisches Justiz- und Polizeidepartement"
    case 78 => "Konsularische Direktion"
    case 79 => "Bundesamt für Veterinärwesen"
    case 80 => "Oberauditorat"
    case 81 => "Schweizerische Bundeskanzlei, Sektion Politische Rechte / Projekt Vote électronique"
    case 82 => "Bundesamt für Landwirtschaft BLW"
    case 83 => "Bundeskanzlei, Sektion Politische Rechte"
    case 84 => "Eidgenössisches Finanzdepartement, Generalsekretariat, Rechtsdienst"
    case 85 => "Kompetenzzentrum Amtliche Veröffentlichungen"
    case 86 => "Staatssekretariat für Bildung und Forschung"
    case 87 => "Unbekannte Organisationseinheit - Eidgenössisches Finanzdepartement"
    case 88 => "Bundesamt für Berufsbildung und Technologie"
    case 89 => "Unbekannte Organisationseinheit - Eidgenössisches Justiz- und Polizeidepartement"
    case 90 => "Unbekannte Organisationseinheit - Eidgenössisches Departement des Innern"
    case 91 => "Unbekannte Organisationseinheit - Eidgenössisches Departement für Umwelt, Verkehr, Energie und Kommunikation"
    case 92 => "Politische Direktion"
    case 93 => "Eidgenössisches Hochschulinstitut für Berufsbildung"
    case 94 => "Oberzolldirektion"
    case 95 => "SECO, Direktion für Arbeit"
    case 96 => "Eidgenössische Alkoholverwaltung"
    case 97 => "Eidgenössische Finanzkontrolle"
    case 98 => "Eidgenössische Bankenkommission"
    case 99 => "Eidgenössisches Personalamt"
    case 100 => "Unbekannte Organisationseinheit - Eidgenössisches Departement für auswärtige Angelegenheiten"
    case 101 => "Schweizerische Bundeskanzlei"
    case 102 => "Vollzugsstelle für den Zivildienst ZIVI"
    case 103 => "Bundesanwaltschaft"
    case 104 => "Unbekannte Organisationseinheit - Eidgenössisches Volkswirtschaftsdepartement"
    case 105 => "Bundesamt für Umwelt, Wald und Landschaft"
    case 106 => "Postregulationsbehörde"
    case 107 => "Eidgenössisches Departement für auswärtige Angelegenheiten"
    case 108 => "Generalsekretariat VBS, Recht VBS"
    case 109 => "Bundesamt für Verkehr, Sektion Recht oder Sektion Güterverkehr"
    case 110 => "Bundesamt für Privatversicherungen"
    case 111 => "Generalsekretariat EVD"
    case 112 => "Direktion für Völkerrecht, Sektion Diplomatisches und konsularisches Recht"
    case 113 => "Bundesamt für Berufsbildung und Technologie, Projektverantwortliche, Ressort Grundsatzfragen und Verfahren"
    case 114 => "Integrationsbüro EDA/EVD"
    case 115 => "Bundesamt für Zuwanderung, Integration und Auswanderung"
    case 116 => "Bundesamt für Bildung und Wissenschaft"
    case 117 => "Bundesamt für Gesundheit, Direktionsbereich Kranken- und Unfallversicherung"
    case 118 => "Kommunikationsdienst EVD"
    case 119 => "Unbekannte Organisationseinheit - Eidgenössisches Militärdepartement"
    case 120 => "Unbekannte Organisationseinheit - Eidgenössisches Verkehrs- und Energiewirtschaftsdepartement"
    case 121 => "Unbekannte Organisationseinheit - Schweizerische Bundeskanzlei"
    case 122 => "Bundesamt für Flüchtlinge"
    case 123 => "Bundesamt für Berufsbildung und Technologie BBT, Ressort höhere Berufsbildung"
    case 124 => "Bundesamt für Wasser und Geologie"
    case _ => "Unbekannte Organisationseinheit - Eidgenössisches Departement für Verteidigung, Bevölkerungsschutz und Sport"
  }

  /** The topics of arm `i`; no arm lists a topic twice. The table is kept in
      blocks of 32 arms so that each block's lists are checked on their own. */
  function ArmTags(i: ArmIndex): (tags: seq<Tag>)
    ensures NoDuplicates(tags)
  {
    if i < 32 then ArmTagsBlock0(i)
    else if i < 64 then ArmTagsBlock1(i - 32)
    else if i < 96 then ArmTagsBlock2(i - 64)
    else ArmTagsBlock3(i - 96)
  }

  /** Arms 0 to 31 of the table. */
  function ArmTagsBlock0(k: nat): (tags: seq<Tag>)
    requires k < 32
    ensures NoDuplicates(tags)
  {
    match k
    case 0 => [Energie]
    case 1 => []
    case 2 => [Bildung, Forschung, Informatik]
    case 3 => [Wirtschaft]
    case 4 => [Gesundheit]
    case 5 => [Kultur]
    case 6 => [Verteidigung, Sicherheit]
    case 7 => [Finanzen]
    case 8 => [Versicherung]
    case 9 => [Gesundheit, Verteidigung, Sicherheit]
    case 10 => [Recht]
    case 11 => [Recht]
    case 12 => [Verkehr]
    case 13 => [Verteidigung, Sicherheit, Sport]
    case 14 => [Verkehr]
    case 15 => [Raumordnung]
    case 16 => [Verteidigung, Wirtschaft, Sicherheit]
    case 17 => [Raumordnung]
    case 18 => [Umwelt]
    case 19 => [Sicherheit, Verkehr, Kommunikation]
    case 20 => [Verteidigung, Sicherheit, Diplomatie]
    case 21 => [Wirtschaft, Finanzen, Diplomatie]
    case 22 => [Kommunikation]
    case 23 => [Wirtschaft, Finanzen]
    case 24 => [Migration]
    case 25 => [Sicherheit]
    case 26 => [Sicherheit, Verkehr, Migration]
    case 27 => []
    case 28 => [Landwirtschaft, Wirtschaft]
    case 29 => [Recht, Diplomatie]
    case 30 => [Wirtschaft, Finanzen]
    case _ => [Sport]
  }

  /** Arms 32 to 63 of the table. */
  function ArmTagsBlock1(k: nat): (tags: seq<Tag>)
    requires k < 32
    ensures NoDuplicates(tags)
  {
    match k
    case 0 => [Forschung, Bildung]
    case 1 => [Verteidigung, Sicherheit, Verkehr, Migration]
    case 2 => []
    case 3 => [Wirtschaft, Finanzen]
    case 4 => []
    case 5 => [Verteidigung, Sicherheit, Diplomatie]
    case 6 => []
    case 7 => [Recht]
    case 8 => [Gesundheit, Sicherheit]
    case 9 => [Verkehr]
    case 10 => [Umwelt, Verkehr, Energie, Kommunikation]
    case 11 => [Verkehr, Kommunikation]
    case 12 => [Wirtschaft]
    case 13 => [Gesundheit, Versicherung, Kultur, Umwelt]
    case 14 => [Recht]
    case 15 => []
    case 16 => [Recht]
    case 17 => []
    case 18 => [Diplomatie]
    case 19 => [Bildung, Forschung, Kultur]
    case 20 => [Wirtschaft, Finanzen]
    case 21 => []
    case 22 => [Umwelt, Energie, Raumordnung]
    case 23 => []
    case 24 => []
    case 25 => [Umwelt]
    case 26 => [Umwelt, Raumordnung, Energie]
    case 27 => [Wirtschaft, Bildung, Forschung]
    case 28 => [Gesundheit]
    case 29 => [Sicherheit, Gesundheit]
    case 30 => [Verteidigung, Sicherheit, Sport]
    case _ => [Umwelt, Verkehr, Energie, Kommunikation]
  }

  /** Arms 64 to 95 of the table. */
  function ArmTagsBlock2(k: nat): (tags: seq<Tag>)
    requires k < 32
    ensures NoDuplicates(tags)
  {
    match k
    case 0 => [Wirtschaft]
    case 1 => [Wirtschaft, Finanzen]
    case 2 => [Recht]
    case 3 => [Informatik]
    case 4 => [Wirtschaft, Finanzen]
    case 5 => []
    case 6 => [Wirtschaft, Finanzen]
    case 7 => [Wirtschaft]
    case 8 => [Umwelt, Energie, Raumordnung]
    case 9 => [Sicherheit, Gesundheit]
    case 10 => [Migration]
    case 11 => [Informatik]
    case 12 => [Wirtschaft, Finanzen]
    case 13 => [Recht, Sicherheit]
    case 14 => [Diplomatie]
    case 15 => [Gesundheit]
    case 16 => [Recht, Verteidigung]
    case 17 => [Informatik, Recht]
    case 18 => [Landwirtschaft, Wirtschaft]
    case 19 => []
    case 20 => [Wirtschaft, Recht, Finanzen]
    case 21 => []
    case 22 => [Bildung, Forschung]
    case 23 => [Wirtschaft, Finanzen]
    case 24 => [Bildung, Forschung]
    case 25 => [Recht, Sicherheit]
    case 26 => [Gesundheit, Versicherung, Kultur, Umwelt]
    case 27 => [Umwelt, Verkehr, Energie, Kommunikation]
    case 28 => []
    case 29 => [Bildung]
    case 30 => [Sicherheit, Verkehr, Migration]
    case _ => [Wirtschaft, Diplomatie]
  }

  /** Arms 96 to 125 of the table. */
  function ArmTagsBlock3(k: nat): (tags: seq<Tag>)
    requires k < 30
    ensures NoDuplicates(tags)
  {
    match k
    case 0 => []
    case 1 => [Wirtschaft, Finanzen]
    case 2 => [Wirtschaft, Finanzen]
    case 3 => []
    case 4 => [Diplomatie]
    case 5 => []
    case 6 => []
    case 7 => [Recht]
    case 8 => [Wirtschaft]
    case 9 => [Umwelt]
    case 10 => [Kommunikation, Verkehr]
    case 11 => [Diplomatie]
    case 12 => [Verteidigung, Sicherheit, Sport, Recht]
    case 13 => [Verkehr, Recht]
    case 14 => [Versicherung]
    case 15 => []
    case 16 => [Recht, Diplomatie]
    case 17 => [Bildung, Forschung]
    case 18 => []
    case 19 => [Migration]
    case 20 => [Bildung, Forschung]
    case 21 => [Gesundheit, Versicherung]
    case 22 => [Kommunikation]
    case 23 => [Verteidigung, Sicherheit]
    case 24 => [Verkehr, Energie, Wirtschaft]
    case 25 => []
    case 26 => [Migration]
    case 27 => [Bildung, Forschung]
    case 28 => [Umwelt]
    case _ => [Sicherheit, Verteidigung, Sport]
  }

  /** The first arm at or after `from` whose name in `names` is exactly
      `institution`. */
  function FirstArm(names: ArmIndex -> string, institution: string, from: nat): (r: Option<ArmIndex>)
    requires from <= ArmCount
    ensures r.Some? ==>
      from <= r.value && names(r.value) == institution &&
      (forall j: ArmIndex :: from <= j < r.value ==> names(j) != institution)
    ensures r.None? ==> forall j: ArmIndex :: from <= j ==> names(j) != institution
    decreases ArmCount - from
  {
    if from == ArmCount then None
    else if names(from) == institution then Some(from)
    else FirstArm(names, institution, from + 1)
  }

  /** The answer of the lookup: a (possibly empty) list of slugs, or the
      sentinel for an institution the table does not know. */
  datatype Extracted = Tags(slugs: seq<string>) | Unmatched

  /** The lookup: the tags of the first arm named exactly `institution`, or
      `Unmatched` when no arm is. Every slug it hands out is in `TAGS`, and
      none twice. */
  function ExtractTags(institution: string): (r: Extracted)
    ensures r.Tags? ==> ValidTagList(r.slugs)
  {
    match FirstArm(Institution, institution, 0)
    case None => Unmatched
    case Some(k) =>
      SlugsValid(ArmTags(k));
      Tags(Slugs(ArmTags(k)))
  }

  /** The lookup answers with the sentinel exactly for a name that no arm
      carries. */
  lemma UnmatchedIffUnlisted(institution: string)
    ensures ExtractTags(institution).Unmatched? <==>
      forall j: ArmIndex :: Institution(j) != institution
  {
  }

  /** A list answer is the tag list of an arm carrying exactly the name. */
  lemma TagsFromMatchingArm(institution: string)
    ensures ExtractTags(institution).Tags? ==> exists j: ArmIndex ::
      Institution(j) == institution && ExtractTags(institution).slugs == Slugs(ArmTags(j)) &&
      forall i: ArmIndex :: i < j ==> Institution(i) != institution
  {
  }

  /** The service object; the tag repository it also holds is not modelled. */
  datatype Service = Service(tags: seq<string>)

  /** Constructing the service copies the vocabulary into its `tags` field. */
  function NewService(): Service {
    Service(TAGS)
  }

  /** The service's tag list holds the twenty slugs of the vocabulary, each
      once. */
  lemma NewServiceHoldsVocabulary()
    ensures |NewService().tags| == 20 && NoDuplicates(NewService().tags)
    ensures forall t :: Slug(t) in NewService().tags
    ensures forall s :: s in NewService().tags ==> TagOfSlug(s).Some?
  {
    VocabularyMatchesTags();
    TagsAreSlugs();
    SlugRoundTrip();
    forall s | s in TAGS ensures TagOfSlug(s).Some? {
      var k :| 0 <= k < |TAGS| && TAGS[k] == s;
      assert s == Slug(Vocabulary[k]);
    }
  }

  /** The first arm's name gets its one topic. */
  lemma EnergyExample()
    ensures ExtractTags("Bundesamt für Energie") == Tags(["energie"])
  {
    assert Institution(0) == "Bundesamt für Energie";
    assert FirstArm(Institution, "Bundesamt für Energie", 0) == Some(0);
    assert ArmTags(0) == [Energie];
  }

  /** Matching is by the exact name: a known institution without topics gets
      an empty list, which is not the sentinel. */
  lemma EmptyListExample()
    ensures ExtractTags("Parlamentsdienste") == Tags([])
  {
    assert Institution(0) != "Parlamentsdienste";
    assert Institution(1) == "Parlamentsdienste";
    assert FirstArm(Institution, "Parlamentsdienste", 1) == Some(1);
    assert ArmTags(1) == [];
  }
}

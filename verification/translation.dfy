/** Translation lookup (hooks/use-translation.ts) over the tables of
    lib/translations.ts. */
module Translation {

  /** The two languages the app ships. */
  datatype Language = English | Norwegian

  const EnglishTable: map<string, string> :=
    map[
      "appName" := "Moth Hunt",
      "takePhoto" := "Take Photo",
      "selectPhoto" := "Select Photo",
      "readMore" := "Read More",
      "history" := "History",
      "viewMap" := "View Map",
      "subscribeToNewsletter" := "Subscribe to Newsletter",
      "map" := "Map",
      "satellite" := "Satellite",
      "heatmap" := "Heatmap",
      "observationMap" := "Observation Map",
      "viewOnMap" := "View on Map",
      "satelliteViewComingSoon" := "Satellite view coming soon",
      "heatmapComingSoon" := "Heatmap view coming soon",
      "addObservation" := "Add Observation",
      "back" := "Back",
      "noNetworkTitle" := "No Network",
      "noNetworkDescription" := "You are currently offline. Some features may not work.",
      "noGeolocationTitle" := "No Geolocation",
      "noGeolocationDescription" := "Please enable location services to continue.",
      "noStorageTitle" := "No Storage Space",
      "noStorageDescription" := "Your device is running low on storage space.",
      "dbNotReachableTitle" := "Database Unavailable",
      "dbNotReachableDescription" := "Cannot connect to the database. Please try again later.",
      "newVersionTitle" := "Update Available",
      "newVersionDescription" := "A new version of the app is available. Please refresh to update.",
      "submissionPeriodEndedTitle" := "Submission Period Ended",
      "submissionPeriodEndedDescription" := "The submission period for this project has ended.",
      "imageMissingGeolocationTitle" := "Missing Location Data",
      "imageMissingGeolocationDescription" := "This image does not have location data. Please add it manually.",
      "comment" := "Comment",
      "submit" := "Submit",
      "submitting" := "Submitting...",
      "cancel" := "Cancel",
      "submissionSuccess" := "Your submission has been received!",
      "submissionError" := "There was an error submitting your data. Please try again.",
      "noObservationsYet" := "No observations yet. Take some photos!",
      "offlineMode" := "You are offline. Only local observations are shown.",
      "localOnly" := "Local only"
    ]

  const NorwegianTable: map<string, string> :=
    map[
      "appName" := "Målerjakt",
      "takePhoto" := "Ta Bilde",
      "selectPhoto" := "Velg Bilde",
      "readMore" := "Les Mer",
      "history" := "Historikk",
      "viewMap" := "Vis Kart",
      "subscribeToNewsletter" := "Abonner på Nyhetsbrev",
      "map" := "Kart",
      "satellite" := "Satellitt",
      "heatmap" := "Varmekart",
      "observationMap" := "Observasjonskart",
      "viewOnMap" := "Vis på kart",
      "satelliteViewComingSoon" := "Satellittvisning kommer snart",
      "heatmapComingSoon" := "Varmekart kommer snart",
      "addObservation" := "Legg til observasjon",
      "back" := "Tilbake",
      "noNetworkTitle" := "Ingen Nettverk",
      "noNetworkDescription" := "Du er for øyeblikket offline. Noen funksjoner fungerer kanskje ikke.",
      "noGeolocationTitle" := "Ingen Geolokasjon",
      "noGeolocationDescription" := "Vennligst aktiver posisjonstjenester for å fortsette.",
      "noStorageTitle" := "Ingen Lagringsplass",
      "noStorageDescription" := "Enheten din har lite lagringsplass.",
      "dbNotReachableTitle" := "Database Utilgjengelig",
      "dbNotReachableDescription" := "Kan ikke koble til databasen. Prøv igjen senere.",
      "newVersionTitle" := "Oppdatering Tilgjengelig",
      "newVersionDescription" := "En ny versjon av appen er tilgjengelig. Oppdater for å installere.",
      "submissionPeriodEndedTitle" := "Innsendingsperioden er Avsluttet",
      "submissionPeriodEndedDescription" := "Innsendingsperioden for dette prosjektet er avsluttet.",
      "imageMissingGeolocationTitle" := "Mangler Posisjonsdata",
      "imageMissingGeolocationDescription" := "Dette bildet mangler posisjonsdata. Legg det til manuelt.",
      "comment" := "Kommentar",
      "submit" := "Send inn",
      "submitting" := "Sender inn...",
      "cancel" := "Avbryt",
      "submissionSuccess" := "Innsendingen din er mottatt!",
      "submissionError" := "Det oppstod en feil ved innsending av dataene dine. Vennligst prøv igjen.",
      "noObservationsYet" := "Ingen observasjoner ennå. Ta noen bilder!",
      "offlineMode" := "Du er offline. Bare lokale observasjoner vises.",
      "localOnly" := "Kun lokalt"
    ]

  function Table(language: Language): map<string, string> {
    match language
    case English => EnglishTable
    case Norwegian => NorwegianTable
  }

  /** Whether `t(key)` has to show the key itself. */
  predicate FallsBack(language: Language, key: string) {
    key !in Table(language) || Table(language)[key] == ""
  }

  /** `t(key)`: `translations[language][key] || key`. */
  function Translate(language: Language, key: string): (r: string)
    ensures !FallsBack(language, key) ==> r == Table(language)[key] && r != ""
    ensures FallsBack(language, key) ==> r == key
  {
    if key in Table(language) && Table(language)[key] != "" then Table(language)[key] else key
  }

  /** Both tables define the same keys and no empty text, so whether a key
      falls back does not depend on the language. */
  lemma FallbackIndependentOfLanguage(key: string)
    ensures EnglishTable.Keys == NorwegianTable.Keys
    ensures FallsBack(English, key) <==> FallsBack(Norwegian, key)
    ensures FallsBack(English, key) <==> key !in EnglishTable
  {
  }

  lemma SubmissionsUndefined() ensures "submissions" !in EnglishTable && "submissions" !in NorwegianTable {}
  lemma StatisticsUndefined() ensures "statistics" !in EnglishTable && "statistics" !in NorwegianTable {}
  lemma ExportUndefined() ensures "export" !in EnglishTable && "export" !in NorwegianTable {}

  /** Keys the admin screens use but neither table defines render as themselves. */
  lemma AdminKeysUntranslated(language: Language)
    ensures Translate(language, "submissions") == "submissions"
    ensures Translate(language, "statistics") == "statistics"
    ensures Translate(language, "export") == "export"
  {
    SubmissionsUndefined();
    StatisticsUndefined();
    ExportUndefined();
  }

  lemma EnglishHistory() ensures "history" in EnglishTable && EnglishTable["history"] == "History" {}
  lemma NorwegianHistory() ensures "history" in NorwegianTable && NorwegianTable["history"] == "Historikk" {}

  /** A defined key renders as its text in the chosen language. */
  lemma DefinedKeyTranslated()
    ensures Translate(English, "history") == "History"
    ensures Translate(Norwegian, "history") == "Historikk"
  {
    EnglishHistory();
    NorwegianHistory();
  }
}

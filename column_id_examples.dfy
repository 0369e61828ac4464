/**
 * The worked examples documented beside `generateColumnId` and
 * `generateUniqueColumnId` (my-todo/src/utils/columnUtils.ts and
 * columnUtils.example.ts). Each step of the pipeline is worked out on a few
 * characters at a time, the pieces are joined with that step's append lemma,
 * and `GenerateColumnIdSteps` chains the steps.
 */
module ColumnIdExamples {
  import opened JsText
  import opened ColumnUtils

  lemma SpaceRuns()
    ensures DashSpaces(" ") == "-"
    ensures DashSpaces("  ") == "-"
    ensures DashSpaces("   ") == "-"
  {
  }

  // "На проверке" -> "na-proverke"

  lemma NaProverkeText()
    ensures LowerCase("На проверке") == "на проверке"
    ensures "на" + " " + "про" + "вер" + "ке" == "на проверке"
  {
  }

  lemma NaProverkeLatinText()
    ensures "na" + " " + "pro" + "ver" + "ke" == "na proverke"
    ensures "na" + " " + "proverke" == "na proverke"
    ensures "na" + "-" + "proverke" == "na-proverke"
  {
  }

  lemma NaProverkeLetters1()
    ensures Transliterate("на") == "na"
    ensures Transliterate(" ") == " "
    ensures Transliterate("про") == "pro"
  {
  }

  lemma NaProverkeLetters2()
    ensures Transliterate("вер") == "ver"
    ensures Transliterate("ке") == "ke"
  {
  }

  lemma NaProverkeWords()
    ensures NoJsSpace("na") && NoJsSpace("proverke")
    ensures IsSlug("na-proverke")
  {
  }

  lemma NaProverkeSteps()
    ensures Transliterate("на" + " " + "про" + "вер" + "ке") == "na" + " " + "pro" + "ver" + "ke"
    ensures DashSpaces("na" + " " + "proverke") == "na" + "-" + "proverke"
  {
    NaProverkeLetters1();
    NaProverkeLetters2();
    TransliterateAppend("на", " ");
    TransliterateAppend("на" + " ", "про");
    TransliterateAppend("на" + " " + "про", "вер");
    TransliterateAppend("на" + " " + "про" + "вер", "ке");
    NaProverkeWords();
    SpaceRuns();
    DashSpacesUnchanged("na");
    DashSpacesUnchanged("proverke");
    DashSpacesAppend("na", " ");
    DashSpacesAppend("na" + " ", "proverke");
  }

  /** `generateColumnId("На проверке")` is `"na-proverke"`. */
  lemma ExampleNaProverke()
    ensures GenerateColumnId("На проверке") == "na-proverke"
  {
    NaProverkeText();
    NaProverkeLatinText();
    NaProverkeSteps();
    NaProverkeWords();
    SlugSurvivesCleanup("na-proverke");
    GenerateColumnIdSteps("На проверке", "на проверке", "na proverke", "na-proverke", "na-proverke");
  }

  // "В работе" -> "v-rabote" and "Завершено" -> "zaversheno", the default titles

  lemma VRaboteText()
    ensures LowerCase("В работе") == "в работе"
    ensures "в" + " " + "ра" + "бо" + "те" == "в работе"
    ensures "v" + " " + "ra" + "bo" + "te" == "v rabote" && "v" + " " + "rabote" == "v rabote"
    ensures "v" + "-" + "rabote" == "v-rabote"
  {
  }

  lemma VRaboteLetters1() ensures Transliterate("в") == "v" && Transliterate(" ") == " " {}
  lemma VRaboteLetters2() ensures Transliterate("ра") == "ra" {}
  lemma VRaboteLetters3() ensures Transliterate("бо") == "bo" {}
  lemma VRaboteLetters4() ensures Transliterate("те") == "te" {}

  lemma VRaboteWords()
    ensures NoJsSpace("v") && NoJsSpace("rabote")
    ensures IsSlug("v-rabote")
  {
  }

  lemma VRaboteSteps()
    ensures Transliterate("в" + " " + "ра" + "бо" + "те") == "v" + " " + "ra" + "bo" + "te"
    ensures DashSpaces("v" + " " + "rabote") == "v" + "-" + "rabote"
  {
    VRaboteLetters1();
    VRaboteLetters2();
    VRaboteLetters3();
    VRaboteLetters4();
    TransliterateAppend("в", " ");
    TransliterateAppend("в" + " ", "ра");
    TransliterateAppend("в" + " " + "ра", "бо");
    TransliterateAppend("в" + " " + "ра" + "бо", "те");
    VRaboteWords();
    SpaceRuns();
    DashSpacesUnchanged("v");
    DashSpacesUnchanged("rabote");
    DashSpacesAppend("v", " ");
    DashSpacesAppend("v" + " ", "rabote");
  }

  /** `generateColumnId("В работе")` is `"v-rabote"`. */
  lemma ExampleVRabote()
    ensures GenerateColumnId("В работе") == "v-rabote"
  {
    VRaboteText();
    VRaboteSteps();
    VRaboteWords();
    SlugSurvivesCleanup("v-rabote");
    GenerateColumnIdSteps("В работе", "в работе", "v rabote", "v-rabote", "v-rabote");
  }

  lemma ZavershenoText()
    ensures LowerCase("Завершено") == "завершено"
    ensures "за" + "вер" + "ше" + "но" == "завершено"
    ensures "za" + "ver" + "she" + "no" == "zaversheno"
    ensures NoJsSpace("zaversheno") && IsSlug("zaversheno")
  {
  }

  lemma ZavershenoLetters1() ensures Transliterate("за") == "za" {}
  lemma ZavershenoLetters2() ensures Transliterate("вер") == "ver" {}
  lemma ZavershenoLetters3() ensures Transliterate("ше") == "she" && Transliterate("но") == "no" {}

  /** `generateColumnId("Завершено")` is `"zaversheno"`. */
  lemma ExampleZaversheno()
    ensures GenerateColumnId("Завершено") == "zaversheno"
  {
    ZavershenoText();
    ZavershenoLetters1();
    ZavershenoLetters2();
    ZavershenoLetters3();
    TransliterateAppend("за", "вер");
    TransliterateAppend("за" + "вер", "ше");
    TransliterateAppend("за" + "вер" + "ше", "но");
    DashSpacesUnchanged("zaversheno");
    SlugSurvivesCleanup("zaversheno");
    GenerateColumnIdSteps("Завершено", "завершено", "zaversheno", "zaversheno", "zaversheno");
  }

  // "Hello World" -> "hello-world"

  lemma HelloWorldText()
    ensures LowerCase("Hello World") == "hello world"
    ensures NoRussianLower("hello world")
    ensures "hello" + " " + "world" == "hello world"
    ensures "hello" + "-" + "world" == "hello-world"
  {
  }

  lemma HelloWorldWords()
    ensures NoJsSpace("hello") && NoJsSpace("world")
    ensures IsSlug("hello-world")
  {
  }

  lemma HelloWorldSteps()
    ensures DashSpaces("hello" + " " + "world") == "hello" + "-" + "world"
  {
    HelloWorldWords();
    SpaceRuns();
    DashSpacesUnchanged("hello");
    DashSpacesUnchanged("world");
    DashSpacesAppend("hello", " ");
    DashSpacesAppend("hello" + " ", "world");
  }

  /** `generateColumnId("Hello World")` is `"hello-world"`. */
  lemma ExampleHelloWorld()
    ensures GenerateColumnId("Hello World") == "hello-world"
  {
    HelloWorldText();
    TransliterateUnchanged("hello world");
    HelloWorldSteps();
    HelloWorldWords();
    SlugSurvivesCleanup("hello-world");
    GenerateColumnIdSteps("Hello World", "hello world", "hello world", "hello-world", "hello-world");
  }

  // "Bug's & Fix!!" -> "bugs-fix"

  lemma BugsFixLower()
    ensures LowerCase("Bug's & Fix!!") == "bug's & fix!!"
    ensures NoRussianLower("bug's & fix!!")
  {
  }

  lemma BugsFixText()
    ensures "bug's" + " " + "&" + " " + "fix!!" == "bug's & fix!!"
    ensures "bug's" + "-" + "&" + "-" + "fix!!" == "bug's-&-fix!!"
  {
  }

  lemma BugsFixKeptText()
    ensures "bug" + "'" + "s-" + "&" + "-fix" + "!!" == "bug's-&-fix!!"
    ensures "bug" + "" + "s-" + "" + "-fix" + "" == "bugs--fix"
    ensures "bugs" + "--" + "fix" == "bugs--fix"
    ensures "bugs" + "-" + "fix" == "bugs-fix"
  {
  }

  lemma BugsFixPieces()
    ensures NoJsSpace("bug's") && NoJsSpace("&") && NoJsSpace("fix!!")
    ensures AllWordOrDash("bug") && AllWordOrDash("s-") && AllWordOrDash("-fix")
  {
  }

  lemma BugsFixDropped()
    ensures StripNonWord("'") == "" && StripNonWord("&") == "" && StripNonWord("!!") == ""
  {
  }

  lemma BugsFixSquashed()
    ensures NoDoubleDash("bugs") && NoDoubleDash("fix") && SquashDashes("--") == "-"
    ensures IsSlug("bugs-fix")
  {
  }

  lemma BugsFixDashed()
    ensures DashSpaces("bug's" + " " + "&" + " " + "fix!!") == "bug's" + "-" + "&" + "-" + "fix!!"
  {
    BugsFixPieces();
    SpaceRuns();
    DashSpacesUnchanged("bug's");
    DashSpacesUnchanged("&");
    DashSpacesUnchanged("fix!!");
    DashSpacesAppend("bug's", " ");
    DashSpacesAppend("bug's" + " ", "&");
    DashSpacesAppend("bug's" + " " + "&", " ");
    DashSpacesAppend("bug's" + " " + "&" + " ", "fix!!");
  }

  lemma BugsFixKept()
    ensures StripNonWord("bug" + "'" + "s-" + "&" + "-fix" + "!!") == "bug" + "" + "s-" + "" + "-fix" + ""
    ensures SquashDashes("bugs" + "--" + "fix") == "bugs" + "-" + "fix"
  {
    BugsFixPieces();
    BugsFixDropped();
    BugsFixSquashed();
    StripNonWordUnchanged("bug");
    StripNonWordUnchanged("s-");
    StripNonWordUnchanged("-fix");
    StripNonWordAppend("bug", "'");
    StripNonWordAppend("bug" + "'", "s-");
    StripNonWordAppend("bug" + "'" + "s-", "&");
    StripNonWordAppend("bug" + "'" + "s-" + "&", "-fix");
    StripNonWordAppend("bug" + "'" + "s-" + "&" + "-fix", "!!");
    SquashDashesUnchanged("bugs");
    SquashDashesUnchanged("fix");
    SquashDashesAppend("bugs", "--");
    SquashDashesAppend("bugs" + "--", "fix");
  }

  /** `generateColumnId("Bug's & Fix!!")` is `"bugs-fix"`. */
  lemma ExampleBugsFix()
    ensures GenerateColumnId("Bug's & Fix!!") == "bugs-fix"
  {
    BugsFixLower();
    BugsFixText();
    BugsFixKeptText();
    TransliterateUnchanged("bug's & fix!!");
    BugsFixDashed();
    BugsFixKept();
    BugsFixSquashed();
    assert TrimDashes("bugs-fix") == "bugs-fix";
    GenerateColumnIdSteps("Bug's & Fix!!", "bug's & fix!!", "bug's & fix!!", "bug's-&-fix!!", "bugs-fix");
  }

  // "  Много   пробелов  " -> "mnogo-probelov"

  lemma MnogoLower()
    ensures LowerCase("  Много   пробелов  ") == "  много   пробелов  "
  {
  }

  lemma MnogoText()
    ensures "  " + "мн" + "ого" + "   " + "про" + "бел" + "ов" + "  " == "  много   пробелов  "
  {
  }

  lemma MnogoLatinText()
    ensures "  " + "mn" + "ogo" + "   " + "pro" + "bel" + "ov" + "  " == "  mnogo   probelov  "
    ensures "  " + "mnogo" + "   " + "probelov" + "  " == "  mnogo   probelov  "
    ensures "-" + "mnogo" + "-" + "probelov" + "-" == "-mnogo-probelov-"
  {
  }

  lemma MnogoLetters1()
    ensures Transliterate("  ") == "  "
    ensures Transliterate("   ") == "   "
  {
  }

  lemma MnogoLetters2() ensures Transliterate("мн") == "mn" {}
  lemma MnogoLetters3() ensures Transliterate("ого") == "ogo" {}
  lemma MnogoLetters4() ensures Transliterate("про") == "pro" {}
  lemma MnogoLetters5() ensures Transliterate("бел") == "bel" {}
  lemma MnogoLetters6() ensures Transliterate("ов") == "ov" {}

  lemma MnogoWords()
    ensures NoJsSpace("mnogo") && NoJsSpace("probelov")
    ensures AllWordOrDash("-mnogo-probelov-") && NoDoubleDash("-mnogo-probelov-")
    ensures TrimDashes("-mnogo-probelov-") == "mnogo-probelov"
  {
  }

  lemma MnogoLatin()
    ensures Transliterate("  " + "мн" + "ого" + "   " + "про" + "бел" + "ов" + "  ")
            == "  " + "mn" + "ogo" + "   " + "pro" + "bel" + "ov" + "  "
  {
    MnogoLetters1();
    MnogoLetters2();
    MnogoLetters3();
    MnogoLetters4();
    MnogoLetters5();
    MnogoLetters6();
    TransliterateAppend("  ", "мн");
    TransliterateAppend("  " + "мн", "ого");
    TransliterateAppend("  " + "мн" + "ого", "   ");
    TransliterateAppend("  " + "мн" + "ого" + "   ", "про");
    TransliterateAppend("  " + "мн" + "ого" + "   " + "про", "бел");
    TransliterateAppend("  " + "мн" + "ого" + "   " + "про" + "бел", "ов");
    TransliterateAppend("  " + "мн" + "ого" + "   " + "про" + "бел" + "ов", "  ");
  }

  lemma MnogoDashed()
    ensures DashSpaces("  " + "mnogo" + "   " + "probelov" + "  ") == "-" + "mnogo" + "-" + "probelov" + "-"
  {
    MnogoWords();
    SpaceRuns();
    DashSpacesUnchanged("mnogo");
    DashSpacesUnchanged("probelov");
    DashSpacesAppend("  ", "mnogo");
    DashSpacesAppend("  " + "mnogo", "   ");
    DashSpacesAppend("  " + "mnogo" + "   ", "probelov");
    DashSpacesAppend("  " + "mnogo" + "   " + "probelov", "  ");
  }

  /** `generateColumnId("  Много   пробелов  ")` is `"mnogo-probelov"`. */
  lemma ExampleMnogoProbelov()
    ensures GenerateColumnId("  Много   пробелов  ") == "mnogo-probelov"
  {
    MnogoLower();
    MnogoText();
    MnogoLatinText();
    MnogoLatin();
    MnogoDashed();
    MnogoWords();
    StripNonWordUnchanged("-mnogo-probelov-");
    SquashDashesUnchanged("-mnogo-probelov-");
    GenerateColumnIdSteps("  Много   пробелов  ", "  много   пробелов  ", "  mnogo   probelov  ",
                          "-mnogo-probelov-", "mnogo-probelov");
  }

  // "Архив" -> "arhiv" and "Задачи" -> "zadachi"

  lemma ArhivText()
    ensures LowerCase("Архив") == "архив"
    ensures "ар" + "хив" == "архив" && "ar" + "hiv" == "arhiv"
    ensures NoJsSpace("arhiv") && IsSlug("arhiv")
  {
  }

  lemma ArhivLetters1() ensures Transliterate("ар") == "ar" {}
  lemma ArhivLetters2() ensures Transliterate("хив") == "hiv" {}

  /** `generateColumnId("Архив")` is `"arhiv"`. */
  lemma ExampleArhiv()
    ensures GenerateColumnId("Архив") == "arhiv"
  {
    ArhivText();
    ArhivLetters1();
    ArhivLetters2();
    TransliterateAppend("ар", "хив");
    DashSpacesUnchanged("arhiv");
    SlugSurvivesCleanup("arhiv");
    GenerateColumnIdSteps("Архив", "архив", "arhiv", "arhiv", "arhiv");
  }

  lemma ZadachiText()
    ensures LowerCase("Задачи") == "задачи"
    ensures "за" + "да" + "чи" == "задачи" && "za" + "da" + "chi" == "zadachi"
    ensures NoJsSpace("zadachi") && IsSlug("zadachi")
  {
  }

  lemma ZadachiLetters1() ensures Transliterate("за") == "za" {}
  lemma ZadachiLetters2() ensures Transliterate("да") == "da" {}
  lemma ZadachiLetters3() ensures Transliterate("чи") == "chi" {}

  /** `generateColumnId("Задачи")` is `"zadachi"`. */
  lemma ExampleZadachi()
    ensures GenerateColumnId("Задачи") == "zadachi"
  {
    ZadachiText();
    ZadachiLetters1();
    ZadachiLetters2();
    ZadachiLetters3();
    TransliterateAppend("за", "да");
    TransliterateAppend("за" + "да", "чи");
    DashSpacesUnchanged("zadachi");
    SlugSurvivesCleanup("zadachi");
    GenerateColumnIdSteps("Задачи", "задачи", "zadachi", "zadachi", "zadachi");
  }

  /** `isColumnIdUnique` against `["progress", "review", "completed"]`: a taken id
      is not unique and a new one is. */
  lemma ExampleIsColumnIdUnique()
    ensures !IsColumnIdUnique("progress", ["progress", "review", "completed"])
    ensures IsColumnIdUnique("blocked", ["progress", "review", "completed"])
  {
  }

  lemma ArhivIsFree(id: string)
    requires IsFirstFreeId("arhiv", ["progress", "review", "completed"], id)
    ensures id == "arhiv"
  {
  }

  lemma ZadachiThirdIsFirstFree(id: string)
    requires IsFirstFreeId("zadachi", ["zadachi", "zadachi-2"], id)
    ensures id == "zadachi-3"
  {
    var ids := ["zadachi", "zadachi-2"];
    var k :| 2 <= k <= |ids| + 1 && id == Suffixed("zadachi", k)
             && forall j :: 2 <= j < k ==> Suffixed("zadachi", j) in ids;
    assert Suffixed("zadachi", 2) == "zadachi-2";
    assert Suffixed("zadachi", 3) == "zadachi-3";
  }

  /** A free base comes back as it is: `"Архив"` against
      `["progress", "review", "completed"]` gives `"arhiv"`. */
  method ExampleUniqueArhiv() returns (id: string)
    ensures id == "arhiv"
  {
    ExampleArhiv();
    id := GenerateUniqueColumnId("Архив", ["progress", "review", "completed"]);
    ArhivIsFree(id);
  }

  /** A taken base gets the first free suffix: `"Задачи"` against
      `["zadachi", "zadachi-2"]` gives `"zadachi-3"`. */
  method ExampleUniqueZadachi() returns (id: string)
    ensures id == "zadachi-3"
  {
    ExampleZadachi();
    id := GenerateUniqueColumnId("Задачи", ["zadachi", "zadachi-2"]);
    ZadachiThirdIsFirstFree(id);
  }
}

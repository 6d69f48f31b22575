/**
 * The per-component message registry of `useMessageBuilder`: an append-only list of
 * (file, id, {language -> text}) entries, the current language, and the saved language
 * preference.
 */
module Messages {
  import opened Wrappers
  import opened Text

  datatype Message = Message(file: string, id: string, message: map<string, string>)

  /** The text shown for a missing message or a missing (or empty) translation. */
  const UNKNOWN_MESSAGE: string := "unknown message"

  const SUPPORTED_LANGUAGES: seq<string> := ["zh", "ja", "ko", "en"]

  predicate IsSupported(lang: string) {
    lang in SUPPORTED_LANGUAGES
  }

  predicate HasKey(m: Message, file: string, id: string) {
    m.file == file && m.id == id
  }

  /** The index `messages.find(...)` stops at: the first entry registered for (file, id). */
  function FindIndex(messages: seq<Message>, file: string, id: string): (r: Option<nat>)
    ensures r.Some? ==> r.value < |messages| && HasKey(messages[r.value], file, id)
    ensures r.Some? ==> forall j :: 0 <= j < r.value ==> !HasKey(messages[j], file, id)
    ensures r.None? <==> forall j :: 0 <= j < |messages| ==> !HasKey(messages[j], file, id)
  {
    if messages == [] then None
    else if HasKey(messages[0], file, id) then Some(0)
    else match FindIndex(messages[1..], file, id)
      case None => None
      case Some(k) => Some(k + 1)
  }

  /** No two entries share a (file, id) pair. */
  ghost predicate UniqueKeys(messages: seq<Message>) {
    forall i, j :: 0 <= i < j < |messages| ==> !HasKey(messages[j], messages[i].file, messages[i].id)
  }

  /** `translations[lang] || "unknown message"`: an absent or empty translation falls back. */
  function TextIn(translations: map<string, string>, lang: string): (text: string)
    ensures text != ""
    ensures lang in translations && translations[lang] != "" ==> text == translations[lang]
    ensures !(lang in translations && translations[lang] != "") ==> text == UNKNOWN_MESSAGE
  {
    if lang in translations && translations[lang] != "" then translations[lang] else UNKNOWN_MESSAGE
  }

  /** `getMessage`: the current-language text of the first entry for (file, id). */
  function Lookup(messages: seq<Message>, lang: string, file: string, id: string): (text: string)
    ensures text != ""
    ensures text == UNKNOWN_MESSAGE
            || exists i :: 0 <= i < |messages| && HasKey(messages[i], file, id)
                           && lang in messages[i].message && text == messages[i].message[lang]
  {
    match FindIndex(messages, file, id)
    case None => UNKNOWN_MESSAGE
    case Some(i) => TextIn(messages[i].message, lang)
  }

  /** `setMessage`: append the entry unless one for (file, id) is already registered. */
  function Register(messages: seq<Message>, m: Message): (r: seq<Message>)
    ensures messages <= r && |r| <= |messages| + 1
    ensures exists i :: 0 <= i < |r| && HasKey(r[i], m.file, m.id)
    ensures |r| == |messages| + 1 <==> forall j :: 0 <= j < |messages| ==> !HasKey(messages[j], m.file, m.id)
    ensures |r| == |messages| + 1 ==> r[|messages|] == m
  {
    if FindIndex(messages, m.file, m.id).Some? then messages
    else
      var r := messages + [m];
      assert HasKey(r[|messages|], m.file, m.id);
      r
  }

  /** Registering keeps the keys unique. */
  lemma RegisterKeepsKeysUnique(messages: seq<Message>, m: Message)
    requires UniqueKeys(messages)
    ensures UniqueKeys(Register(messages, m))
  {
  }

  /** A registered entry's text is what `getMessage` returns for it. */
  lemma LookupRegistered(messages: seq<Message>, lang: string, i: nat)
    requires UniqueKeys(messages) && i < |messages|
    ensures Lookup(messages, lang, messages[i].file, messages[i].id) == TextIn(messages[i].message, lang)
  {
    var k := FindIndex(messages, messages[i].file, messages[i].id);
    assert k.Some?;
  }

  /** A registered entry with a non-empty translation for the language is shown as that translation. */
  lemma LookupFound(messages: seq<Message>, lang: string, i: nat)
    requires UniqueKeys(messages) && i < |messages|
    requires lang in messages[i].message && messages[i].message[lang] != ""
    ensures Lookup(messages, lang, messages[i].file, messages[i].id) == messages[i].message[lang]
  {
    LookupRegistered(messages, lang, i);
  }

  /** A registered entry whose translation for the language is missing or empty is shown as the sentinel. */
  lemma LookupUntranslated(messages: seq<Message>, lang: string, i: nat)
    requires UniqueKeys(messages) && i < |messages|
    requires lang !in messages[i].message || messages[i].message[lang] == ""
    ensures Lookup(messages, lang, messages[i].file, messages[i].id) == UNKNOWN_MESSAGE
  {
    LookupRegistered(messages, lang, i);
  }

  /** One registered greeting reads in the current language. */
  lemma GreetingExample(file: string)
    ensures var registry := Register([], Message(file, "hello", map["en" := "Hello", "ja" := "こんにちは"]));
            Lookup(registry, "en", file, "hello") == "Hello"
            && Lookup(registry, "ja", file, "hello") == "こんにちは"
            && Lookup(registry, "ko", file, "hello") == UNKNOWN_MESSAGE
            && Lookup(registry, "en", file, "bye") == UNKNOWN_MESSAGE
  {
    var greeting := Message(file, "hello", map["en" := "Hello", "ja" := "こんにちは"]);
    var registry := Register([], greeting);
    assert registry == [greeting];
    assert UniqueKeys(registry);
    LookupFound(registry, "en", 0);
    LookupFound(registry, "ja", 0);
    LookupUntranslated(registry, "ko", 0);
    assert !HasKey(registry[0], file, "bye");
    LookupUnregistered(registry, "en", file, "bye");
  }

  /** An unregistered (file, id) pair reads as the sentinel. */
  lemma LookupUnregistered(messages: seq<Message>, lang: string, file: string, id: string)
    requires forall j :: 0 <= j < |messages| ==> !HasKey(messages[j], file, id)
    ensures Lookup(messages, lang, file, id) == UNKNOWN_MESSAGE
  {
  }

  /** The registry after a run of `setMessage` calls. */
  function RegisterAll(messages: seq<Message>, regs: seq<Message>): seq<Message>
  {
    if regs == [] then messages else Register(RegisterAll(messages, regs[..|regs| - 1]), regs[|regs| - 1])
  }

  /** Appending entries never moves the entry `find` stops at. */
  lemma FindIndexPrefix(messages: seq<Message>, more: seq<Message>, file: string, id: string)
    requires FindIndex(messages, file, id).Some?
    ensures FindIndex(messages + more, file, id) == FindIndex(messages, file, id)
  {
    var i := FindIndex(messages, file, id).value;
    var k := FindIndex(messages + more, file, id);
    assert (messages + more)[i] == messages[i];
    assert k.Some?;
  }

  /** Appending the first entry for a pair makes `find` stop at it. */
  lemma FindIndexAppendNew(messages: seq<Message>, m: Message)
    requires forall i :: 0 <= i < |messages| ==> !HasKey(messages[i], m.file, m.id)
    ensures FindIndex(messages + [m], m.file, m.id) == Some(|messages|)
  {
    var r := messages + [m];
    assert HasKey(r[|messages|], m.file, m.id);
  }

  /** Once present, the entry `find` stops at never moves, whatever is registered later. */
  lemma {:induction false} FindIndexStable(messages: seq<Message>, regs: seq<Message>, file: string, id: string)
    requires FindIndex(messages, file, id).Some?
    ensures FindIndex(RegisterAll(messages, regs), file, id) == FindIndex(messages, file, id)
  {
    if regs != [] {
      var before := RegisterAll(messages, regs[..|regs| - 1]);
      FindIndexStable(messages, regs[..|regs| - 1], file, id);
      var m := regs[|regs| - 1];
      if FindIndex(before, m.file, m.id).None? {
        FindIndexPrefix(before, [m], file, id);
      }
    }
  }

  /** A pair registered by nobody is absent from the registry. */
  lemma {:induction false} NotRegisteredBefore(messages: seq<Message>, regs: seq<Message>, file: string, id: string)
    requires forall i :: 0 <= i < |messages| ==> !HasKey(messages[i], file, id)
    requires forall i :: 0 <= i < |regs| ==> !HasKey(regs[i], file, id)
    ensures forall i :: 0 <= i < |RegisterAll(messages, regs)| ==> !HasKey(RegisterAll(messages, regs)[i], file, id)
  {
    if regs != [] {
      NotRegisteredBefore(messages, regs[..|regs| - 1], file, id);
    }
  }

  /** Registering a pair that nobody registered before appends it. */
  lemma FirstRegistrationAppends(messages: seq<Message>, regs: seq<Message>, j: nat)
    requires j < |regs|
    requires forall i :: 0 <= i < |messages| ==> !HasKey(messages[i], regs[j].file, regs[j].id)
    requires forall i :: 0 <= i < j ==> !HasKey(regs[i], regs[j].file, regs[j].id)
    ensures RegisterAll(messages, regs[..j + 1]) == RegisterAll(messages, regs[..j]) + [regs[j]]
    ensures FindIndex(RegisterAll(messages, regs[..j + 1]), regs[j].file, regs[j].id) == Some(|RegisterAll(messages, regs[..j])|)
  {
    var m := regs[j];
    var prefix := regs[..j];
    NotRegisteredBefore(messages, prefix, m.file, m.id);
    var before := RegisterAll(messages, prefix);
    FindIndexAppendNew(before, m);
    RegisterAllStep(messages, regs, j);
  }

  /**
   * The entry `find` returns for a new pair is its first registration, at the position it was
   * appended to, whatever follows it.
   */
  lemma FirstRegistrationKept(messages: seq<Message>, regs: seq<Message>, j: nat)
    requires j < |regs|
    requires forall i :: 0 <= i < |messages| ==> !HasKey(messages[i], regs[j].file, regs[j].id)
    requires forall i :: 0 <= i < j ==> !HasKey(regs[i], regs[j].file, regs[j].id)
    ensures FindIndex(RegisterAll(messages, regs), regs[j].file, regs[j].id) == Some(|RegisterAll(messages, regs[..j])|)
    ensures RegisterAll(messages, regs)[|RegisterAll(messages, regs[..j])|] == regs[j]
  {
    var before := RegisterAll(messages, regs[..j]);
    FirstRegistrationAppends(messages, regs, j);
    RegisterAllSplit(messages, regs, j);
    EntryKeptAfter(RegisterAll(messages, regs[..j + 1]), regs[j + 1..], |before|, regs[j]);
  }

  /** The registry after a run is the registry after its first `j + 1` entries, extended by the rest. */
  lemma RegisterAllSplit(messages: seq<Message>, regs: seq<Message>, j: nat)
    requires j < |regs|
    ensures RegisterAll(messages, regs) == RegisterAll(RegisterAll(messages, regs[..j + 1]), regs[j + 1..])
  {
    assert regs[..j + 1] + regs[j + 1..] == regs;
    RegisterAllAppend(messages, regs[..j + 1], regs[j + 1..]);
  }

  /** The entry `find` stops at stays where it is, whatever is registered later. */
  lemma EntryKeptAfter(messages: seq<Message>, regs: seq<Message>, k: nat, m: Message)
    requires FindIndex(messages, m.file, m.id) == Some(k) && messages[k] == m
    ensures FindIndex(RegisterAll(messages, regs), m.file, m.id) == Some(k)
    ensures RegisterAll(messages, regs)[k] == m
  {
    FindIndexStable(messages, regs, m.file, m.id);
    RegisterAllExtends(messages, regs);
  }

  /** Registration only ever appends. */
  lemma {:induction false} RegisterAllExtends(messages: seq<Message>, regs: seq<Message>)
    ensures messages <= RegisterAll(messages, regs)
  {
    if regs != [] {
      RegisterAllExtends(messages, regs[..|regs| - 1]);
    }
  }

  lemma RegisterAllStep(messages: seq<Message>, regs: seq<Message>, j: nat)
    requires j < |regs|
    ensures RegisterAll(messages, regs[..j + 1]) == Register(RegisterAll(messages, regs[..j]), regs[j])
  {
    assert regs[..j + 1][..j] == regs[..j];
  }

  /** Registering two runs one after the other is registering their concatenation. */
  lemma {:induction false} RegisterAllAppend(messages: seq<Message>, a: seq<Message>, b: seq<Message>)
    ensures RegisterAll(RegisterAll(messages, a), b) == RegisterAll(messages, a + b)
  {
    if b != [] {
      RegisterAllAppend(messages, a, b[..|b| - 1]);
      assert (a + b)[..|a + b| - 1] == a + b[..|b| - 1];
    } else {
      assert a + b == a;
    }
  }

  /** The first registration of a new (file, id) pair wins over every later one. */
  lemma FirstRegistrationWins(messages: seq<Message>, regs: seq<Message>, j: nat, lang: string)
    requires j < |regs|
    requires forall i :: 0 <= i < |messages| ==> !HasKey(messages[i], regs[j].file, regs[j].id)
    requires forall i :: 0 <= i < j ==> !HasKey(regs[i], regs[j].file, regs[j].id)
    ensures Lookup(RegisterAll(messages, regs), lang, regs[j].file, regs[j].id) == TextIn(regs[j].message, lang)
  {
    FirstRegistrationKept(messages, regs, j);
  }

  /** `getInitialLanguage`: the saved preference if supported, else the browser locale's prefix, else "en". */
  function InitialLanguage(saved: Option<string>, navigatorLanguage: string): (lang: string)
    ensures IsSupported(lang)
    ensures saved.Some? && IsSupported(saved.value) ==> lang == saved.value
  {
    if saved.Some? && saved.value != "" && IsSupported(saved.value) then saved.value
    else if StartsWith(navigatorLanguage, "zh") then "zh"
    else if StartsWith(navigatorLanguage, "ja") then "ja"
    else if StartsWith(navigatorLanguage, "ko") then "ko"
    else "en"
  }

  /** Without a usable saved preference, each language is chosen exactly when the locale starts with it. */
  lemma InitialLanguageFromLocale(saved: Option<string>, navigatorLanguage: string)
    requires saved.None? || !IsSupported(saved.value)
    ensures InitialLanguage(saved, navigatorLanguage) == "zh" <==> StartsWith(navigatorLanguage, "zh")
    ensures InitialLanguage(saved, navigatorLanguage) == "ja" <==> StartsWith(navigatorLanguage, "ja")
    ensures InitialLanguage(saved, navigatorLanguage) == "ko" <==> StartsWith(navigatorLanguage, "ko")
    ensures InitialLanguage(saved, navigatorLanguage) == "en" <==>
              !StartsWith(navigatorLanguage, "zh") && !StartsWith(navigatorLanguage, "ja") && !StartsWith(navigatorLanguage, "ko")
  {
  }

  /** An empty translation falls back too: English `web_edditon_3` of the starting notice is "". */
  lemma EmptyTranslationIsUnknown(file: string)
    ensures Lookup([Message(file, "web_edditon_3", map["ja" := "次のgithubリポジトリから無料で取得できます。", "en" := "", "zh" := "", "ko" := ""])],
                   "en", file, "web_edditon_3") == UNKNOWN_MESSAGE
  {
  }

  /** The registry owned by one `useMessageBuilder` hook instance. */
  class MessageBuilder {
    var messages: seq<Message>
    var currentLanguage: string
    /** The persisted preference (`voice-changer-language` in browser storage). */
    var savedLanguage: Option<string>

    ghost predicate Valid()
      reads this
    {
      UniqueKeys(messages) && IsSupported(currentLanguage)
    }

    constructor (saved: Option<string>, navigatorLanguage: string)
      ensures Valid()
      ensures messages == [] && savedLanguage == saved
      ensures currentLanguage == InitialLanguage(saved, navigatorLanguage)
    {
      messages := [];
      savedLanguage := saved;
      currentLanguage := InitialLanguage(saved, navigatorLanguage);
    }

    /** `setMessage`: a duplicate (file, id) only warns; otherwise the entry is pushed. */
    method SetMessage(file: string, id: string, message: map<string, string>)
      requires Valid()
      modifies this
      ensures Valid()
      ensures messages == Register(old(messages), Message(file, id, message))
      ensures FindIndex(old(messages), file, id).Some? ==> messages == old(messages)
      ensures FindIndex(old(messages), file, id).None? ==> messages == old(messages) + [Message(file, id, message)]
      ensures currentLanguage == old(currentLanguage) && savedLanguage == old(savedLanguage)
    {
      if FindIndex(messages, file, id).None? {
        RegisterKeepsKeysUnique(messages, Message(file, id, message));
        messages := messages + [Message(file, id, message)];
      }
    }

    /** `getMessage`: reads the registry and changes nothing. */
    method GetMessage(file: string, id: string) returns (text: string)
      requires Valid()
      ensures text == Lookup(messages, currentLanguage, file, id)
      ensures forall i :: 0 <= i < |messages| && HasKey(messages[i], file, id) ==> text == TextIn(messages[i].message, currentLanguage)
      ensures forall i :: (0 <= i < |messages| && HasKey(messages[i], file, id)
                           && currentLanguage in messages[i].message && messages[i].message[currentLanguage] != "")
                          ==> text == messages[i].message[currentLanguage]
      ensures (forall i :: 0 <= i < |messages| ==> !HasKey(messages[i], file, id)) ==> text == UNKNOWN_MESSAGE
    {
      text := Lookup(messages, currentLanguage, file, id);
      forall i | 0 <= i < |messages| && HasKey(messages[i], file, id)
        ensures text == TextIn(messages[i].message, currentLanguage)
      {
        LookupRegistered(messages, currentLanguage, i);
      }
    }

    /** `setLanguage`: only a supported code is taken, and it is also saved. */
    method SetLanguage(lang: string)
      requires Valid()
      modifies this
      ensures Valid()
      ensures messages == old(messages)
      ensures IsSupported(lang) ==> currentLanguage == lang && savedLanguage == Some(lang)
      ensures !IsSupported(lang) ==> currentLanguage == old(currentLanguage) && savedLanguage == old(savedLanguage)
      ensures IsSupported(lang) ==> forall nav :: InitialLanguage(savedLanguage, nav) == currentLanguage
    {
      if IsSupported(lang) {
        currentLanguage := lang;
        savedLanguage := Some(lang);
      }
    }
  }

  /** A language that was set and saved is the one a reload starts with. */
  lemma SavedLanguageSurvivesReload(lang: string, navigatorLanguage: string)
    requires IsSupported(lang)
    ensures InitialLanguage(Some(lang), navigatorLanguage) == lang
  {
  }
}

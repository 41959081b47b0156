/**
 * The hero form of the frontend (frontend/src/components/HeroForm.tsx): the
 * validation schema, the comma-separated powers field and its conversion
 * back to a list, the `FormData` built on submission, and the image state
 * (`imagePreview`, `selectedImage`). The file reader is a parameter: its data
 * URL is handed to the change handler directly. Error messages are those
 * of the schema; for each field the first rule the value breaks is the one
 * reported.
 */
module HeroForm {

  import opened Common
  import opened Strings
  import opened HeroTypes

  /** The values formik holds. `image` is absent until the remove button
      sets it to the empty string. */
  datatype FormValues = FormValues(
    nom: string,
    alias: string,
    univers: string,
    pouvoirs: string,
    description: string,
    origine: string,
    premiereApparition: string,
    image: Option<string>)

  /** `initialValues`: the hero being edited, or empty fields. */
  function InitialValues(hero: Option<Hero>): FormValues {
    if hero.None? then FormValues("", "", "", "", "", "", "", None)
    else
      var h := hero.value;
      FormValues(h.nom, h.alias, UniverseName(h.univers), Join(h.pouvoirs, ", "),
                 h.description, h.origine, h.premiereApparition, None)
  }

  // ---------------------------------------------------------------------
  // The powers field
  // ---------------------------------------------------------------------

  function TrimAll(parts: seq<string>): (r: seq<string>)
    ensures |r| == |parts|
    ensures forall i :: 0 <= i < |parts| ==> r[i] == Trim(parts[i])
  {
    seq(|parts|, i requires 0 <= i < |parts| => Trim(parts[i]))
  }

  predicate IsNonEmpty(p: string) {
    p != ""
  }

  /** A power as the form can send it: not empty, no surrounding blanks and
      no comma, so that it reads back as itself. */
  predicate CleanPower(p: string) {
    p != "" && IsTrimmed(p) && ',' !in p
  }

  /** `value.split(',').map(p => p.trim()).filter(p => p)`. */
  function ParsePowers(s: string): seq<string> {
    Filter(TrimAll(Split(s, ',')), IsNonEmpty)
  }

  /** Trimming only removes characters. */
  lemma TrimKeepsOut(s: string, c: char)
    requires c !in s
    ensures c !in Trim(s)
  {
    var t := TrimStart(s);
    assert s[|s| - |t|..] == t;
  }

  /** Every power the field yields is clean. */
  lemma ParsedPowersClean(s: string)
    ensures forall p :: p in ParsePowers(s) ==> CleanPower(p)
  {
    var parts := Split(s, ',');
    forall p | p in ParsePowers(s) ensures CleanPower(p) {
      var i :| 0 <= i < |parts| && TrimAll(parts)[i] == p;
      TrimKeepsOut(parts[i], ',');
    }
  }

  lemma TrimAllAppend(a: seq<string>, b: seq<string>)
    ensures TrimAll(a + b) == TrimAll(a) + TrimAll(b)
  {
  }

  lemma TrimAllCons(first: string, parts: seq<string>, p: string, ps: seq<string>)
    requires Trim(first) == p && TrimAll(parts) == ps
    ensures TrimAll([first] + parts) == [p] + ps
  {
    TrimAllAppend([first], parts);
  }

  /** The first piece (`pre` is empty) or a later one (`pre` is the space
      after a comma) trims back to the power. */
  lemma TrimPrefixed(pre: string, p: string)
    requires pre == "" || pre == " "
    requires CleanPower(p)
    ensures ',' !in pre + p
    ensures Trim(pre + p) == p
  {
    if pre == "" {
      assert pre + p == p;
      TrimOfTrimmed(p);
    } else {
      TrimAfterSpace(p);
    }
  }

  lemma JoinUnfold(pre: string, ps: seq<string>)
    requires |ps| >= 2
    ensures pre + Join(ps, ", ") == (pre + ps[0]) + [','] + (" " + Join(ps[1..], ", "))
  {
    assert Join(ps, ", ") == ps[0] + ", " + Join(ps[1..], ", ");
  }

  /** One power more in front: its piece comes first, then the pieces of the rest. */
  lemma SplitJoinCons(pre: string, ps: seq<string>)
    requires |ps| >= 2 && ',' !in pre + ps[0] && Trim(pre + ps[0]) == ps[0]
    requires TrimAll(Split(" " + Join(ps[1..], ", "), ',')) == ps[1..]
    ensures TrimAll(Split(pre + Join(ps, ", "), ',')) == ps
  {
    var first := pre + ps[0];
    var rest := Join(ps[1..], ", ");
    JoinUnfold(pre, ps);
    SplitAtSeparator(first, " " + rest, ',');
    TrimAllCons(first, Split(" " + rest, ','), ps[0], ps[1..]);
    assert [ps[0]] + ps[1..] == ps;
  }

  /** Joining with ", " and splitting on ',' gives back each power after the
      prefix `pre` ("" for the first, one space for the others) is trimmed. */
  lemma {:induction false} SplitJoin(ps: seq<string>, pre: string)
    requires |ps| >= 1 && forall p :: p in ps ==> CleanPower(p)
    requires pre == "" || pre == " "
    ensures TrimAll(Split(pre + Join(ps, ", "), ',')) == ps
    decreases |ps|
  {
    assert ps[0] in ps;
    TrimPrefixed(pre, ps[0]);
    if |ps| == 1 {
      SplitJoinSingle(pre, ps);
    } else {
      assert forall p :: p in ps[1..] ==> p in ps;
      SplitJoin(ps[1..], " ");
      SplitJoinCons(pre, ps);
    }
  }

  /** A single power: no comma, so one piece, which trims back to it. */
  lemma SplitJoinSingle(pre: string, ps: seq<string>)
    requires |ps| == 1 && ',' !in pre + ps[0] && Trim(pre + ps[0]) == ps[0]
    ensures TrimAll(Split(pre + Join(ps, ", "), ',')) == ps
  {
    var first := pre + ps[0];
    assert pre + Join(ps, ", ") == first;
    SplitNoSeparator(first, ',');
    assert TrimAll([first]) == [ps[0]];
  }

  /** `join(', ')` then the field's parsing is the identity on clean powers:
      editing a hero leaves its powers as they were. */
  lemma PowersRoundTrip(ps: seq<string>)
    requires forall p :: p in ps ==> CleanPower(p)
    ensures ParsePowers(Join(ps, ", ")) == ps
  {
    if ps == [] {
      TrimOfTrimmed("");
      assert TrimAll(Split("", ',')) == [""];
    } else {
      SplitJoin(ps, "");
      assert "" + Join(ps, ", ") == Join(ps, ", ");
      FilterAll(ps, IsNonEmpty);
    }
  }

  /** Reading back what was sent changes nothing more. */
  lemma ParsePowersIdempotent(s: string)
    ensures ParsePowers(Join(ParsePowers(s), ", ")) == ParsePowers(s)
  {
    ParsedPowersClean(s);
    PowersRoundTrip(ParsePowers(s));
  }

  // ---------------------------------------------------------------------
  // The validation schema
  // ---------------------------------------------------------------------

  /** `Yup.string().required(a).min(lo, b)` and an optional `.max(hi, c)`;
      the bounds are compared with the string's `length`, in UTF-16 units. */
  function LengthError(s: string, lo: nat, hi: Option<nat>,
                       required: string, tooShort: string, tooLong: string): (r: Option<string>)
    ensures r.None? <==> s != "" && lo <= Utf16Length(s) && (hi.Some? ==> Utf16Length(s) <= hi.value)
    ensures s == "" ==> r == Some(required)
    ensures s != "" && Utf16Length(s) < lo ==> r == Some(tooShort)
    ensures s != "" && lo <= Utf16Length(s) && hi.Some? && Utf16Length(s) > hi.value ==> r == Some(tooLong)
  {
    if s == "" then Some(required)
    else if Utf16Length(s) < lo then Some(tooShort)
    else if hi.Some? && Utf16Length(s) > hi.value then Some(tooLong)
    else None
  }

  function NomError(s: string): Option<string> {
    LengthError(s, 2, Some(50), "Le nom est requis",
                "Le nom doit contenir au moins 2 caractères", "Le nom ne peut pas dépasser 50 caractères")
  }

  function AliasError(s: string): Option<string> {
    LengthError(s, 2, Some(50), "L'alias est requis",
                "L'alias doit contenir au moins 2 caractères", "L'alias ne peut pas dépasser 50 caractères")
  }

  /** Twenty-six astral characters are 52 UTF-16 units, so such a name is
      too long although it has only 26 characters. */
  lemma AstralNameTooLong(s: string)
    requires |s| == 26 && forall i :: 0 <= i < |s| ==> IsAstral(s[i])
    ensures NomError(s) == Some("Le nom ne peut pas dépasser 50 caractères")
  {
  }

  function UniversError(s: string): (r: Option<string>)
    ensures r.None? <==> ParseUniverse(s).Some?
  {
    if s == "" then Some("L'univers est requis")
    else if s !in ["Marvel", "DC", "Autre"] then Some("Veuillez choisir un univers valide")
    else None
  }

  function PouvoirsError(s: string): (r: Option<string>)
    ensures r.None? <==> |ParsePowers(s)| > 0
  {
    if s == "" then
      assert ParsePowers(s) == [] by {
        assert TrimAll(Split(s, ',')) == [Trim("")];
        TrimOfTrimmed("");
      }
      Some("Les pouvoirs sont requis")
    else if |ParsePowers(s)| == 0 then Some("Veuillez entrer au moins un pouvoir")
    else None
  }

  function DescriptionError(s: string): Option<string> {
    LengthError(s, 10, None, "La description est requise",
                "La description doit contenir au moins 10 caractères", "")
  }

  function OrigineError(s: string): Option<string> {
    LengthError(s, 2, None, "L'origine est requise",
                "L'origine doit contenir au moins 2 caractères", "")
  }

  function PremiereError(s: string): Option<string> {
    LengthError(s, 2, None, "La première apparition est requise",
                "La première apparition doit contenir au moins 2 caractères", "")
  }

  /** The keys of the form values. */
  datatype Field = Nom | Alias | Univers | Pouvoirs | Description | Origine | PremiereApparition | Image

  function FieldName(f: Field): string {
    match f
    case Nom => "nom"
    case Alias => "alias"
    case Univers => "univers"
    case Pouvoirs => "pouvoirs"
    case Description => "description"
    case Origine => "origine"
    case PremiereApparition => "premiereApparition"
    case Image => "image"
  }

  /** The fields of the schema, in the order of `initialValues`. */
  const SchemaFields: seq<Field> := [Nom, Alias, Univers, Pouvoirs, Description, Origine, PremiereApparition]

  /** `values[key]`. */
  function ValueOf(v: FormValues, f: Field): string {
    match f
    case Nom => v.nom
    case Alias => v.alias
    case Univers => v.univers
    case Pouvoirs => v.pouvoirs
    case Description => v.description
    case Origine => v.origine
    case PremiereApparition => v.premiereApparition
    case Image => if v.image.Some? then v.image.value else ""
  }

  /** The schema entry of `f` applied to its value; `image` has none. */
  function FieldError(v: FormValues, f: Field): Option<string> {
    match f
    case Nom => NomError(v.nom)
    case Alias => AliasError(v.alias)
    case Univers => UniversError(v.univers)
    case Pouvoirs => PouvoirsError(v.pouvoirs)
    case Description => DescriptionError(v.description)
    case Origine => OrigineError(v.origine)
    case PremiereApparition => PremiereError(v.premiereApparition)
    case Image => None
  }

  /** `formik.errors`: one message per field that breaks a rule. */
  function Errors(v: FormValues): map<Field, string> {
    map f | f in SchemaFields && FieldError(v, f).Some? :: FieldError(v, f).value
  }

  /** The rule of each field in plain terms; `image` is not validated. */
  predicate Rule(v: FormValues, f: Field) {
    match f
    case Nom => 2 <= Utf16Length(v.nom) <= 50
    case Alias => 2 <= Utf16Length(v.alias) <= 50
    case Univers => ParseUniverse(v.univers).Some?
    case Pouvoirs => |ParsePowers(v.pouvoirs)| > 0
    case Description => Utf16Length(v.description) >= 10
    case Origine => Utf16Length(v.origine) >= 2
    case PremiereApparition => Utf16Length(v.premiereApparition) >= 2
    case Image => true
  }

  predicate MeetsRules(v: FormValues) {
    forall f :: Rule(v, f)
  }

  /** Each schema entry reports an error exactly when its rule fails. */
  lemma FieldRule(v: FormValues, f: Field)
    ensures FieldError(v, f).None? <==> Rule(v, f)
  {
    match f
    case Nom =>
    case Alias =>
    case Univers =>
    case Pouvoirs =>
    case Description =>
    case Origine =>
    case PremiereApparition =>
    case Image =>
  }

  /** A field is in `formik.errors` exactly when its rule fails, so the form
      has no error exactly when every rule holds. */
  lemma ErrorsIffRules(v: FormValues)
    ensures forall f :: f in Errors(v) <==> !Rule(v, f)
    ensures Errors(v) == map[] <==> MeetsRules(v)
  {
    forall f ensures f in Errors(v) <==> !Rule(v, f) {
      FieldRule(v, f);
      assert f != Image ==> f in SchemaFields;
    }
    if MeetsRules(v) {
      assert Errors(v).Keys == {};
    }
  }

  /** The empty form breaks every rule. */
  lemma EmptyFormBreaksRules()
    ensures forall f :: f != Image ==> !Rule(InitialValues(None), f)
  {
    assert ParsePowers("") == [] by {
      assert TrimAll(Split("", ',')) == [Trim("")];
      TrimOfTrimmed("");
    }
  }

  /** An empty form reports every field of the schema, each as required. */
  lemma EmptyFormErrors()
    ensures forall f :: f in Errors(InitialValues(None)) <==> f != Image
    ensures Errors(InitialValues(None))[Nom] == "Le nom est requis"
    ensures Errors(InitialValues(None))[Pouvoirs] == "Les pouvoirs sont requis"
  {
    var v := InitialValues(None);
    ErrorsIffRules(v);
    EmptyFormBreaksRules();
  }

  /** A hero whose fields meet the rules can be saved without editing. */
  lemma StoredHeroPassesForm(h: Hero)
    requires 2 <= Utf16Length(h.nom) <= 50 && 2 <= Utf16Length(h.alias) <= 50
    requires Utf16Length(h.description) >= 10
    requires Utf16Length(h.origine) >= 2 && Utf16Length(h.premiereApparition) >= 2
    requires h.pouvoirs != [] && forall p :: p in h.pouvoirs ==> CleanPower(p)
    ensures MeetsRules(InitialValues(Some(h)))
    ensures ParsePowers(InitialValues(Some(h)).pouvoirs) == h.pouvoirs
  {
    PowersRoundTrip(h.pouvoirs);
    UniverseNameRoundTrip(h.univers);
  }

  // ---------------------------------------------------------------------
  // Submission
  // ---------------------------------------------------------------------

  /** The file chosen in the file input. */
  datatype FileRef = FileRef(name: string)

  /** An entry of the `FormData`. The powers entry carries the list that
      `JSON.stringify` encodes. */
  datatype FormEntry =
    | TextField(key: string, value: string)
    | PowersField(key: string, powers: seq<string>)
    | FileField(key: string, file: FileRef)

  /** `Object.keys(values)`: the initial keys, then `image` once it was set. */
  function Keys(v: FormValues): (r: seq<Field>)
    ensures Image in r <==> v.image.Some?
  {
    SchemaFields + (if v.image.Some? then [Image] else [])
  }

  function EntryFor(v: FormValues, f: Field): FormEntry {
    if f == Pouvoirs then PowersField(FieldName(f), ParsePowers(v.pouvoirs))
    else TextField(FieldName(f), ValueOf(v, f))
  }

  /** The entries the `forEach` over the keys appends. */
  function FieldEntries(v: FormValues): (r: seq<FormEntry>)
    ensures |r| == |Keys(v)|
    ensures forall i :: 0 <= i < |r| ==> r[i] == EntryFor(v, Keys(v)[i])
  {
    var keys := Keys(v);
    seq(|keys|, i requires 0 <= i < |keys| => EntryFor(v, keys[i]))
  }

  /** A sequence with the entry of each key, in order, is the entries. */
  lemma FieldEntriesUnique(v: FormValues, d: seq<FormEntry>)
    requires |d| == |Keys(v)|
    requires forall j :: 0 <= j < |d| ==> d[j] == EntryFor(v, Keys(v)[j])
    ensures d == FieldEntries(v)
  {
  }

  /** The entries `onSubmit` appends, in order. */
  function FormDataOf(v: FormValues, selectedImage: Option<FileRef>): seq<FormEntry> {
    FieldEntries(v) + (if selectedImage.Some? then [FileField("image", selectedImage.value)] else [])
  }

  /** `onSubmit`: the `forEach` over the keys, then the selected image. */
  method BuildFormData(v: FormValues, selectedImage: Option<FileRef>) returns (formData: seq<FormEntry>)
    ensures formData == FormDataOf(v, selectedImage)
  {
    var keys := Keys(v);
    formData := [];
    var i := 0;
    while i < |keys|
      invariant 0 <= i <= |keys|
      invariant |formData| == i
      invariant forall j :: 0 <= j < i ==> formData[j] == EntryFor(v, keys[j])
    {
      var key := keys[i];
      if key == Pouvoirs {
        formData := formData + [PowersField(FieldName(key), ParsePowers(v.pouvoirs))];
      } else {
        formData := formData + [TextField(FieldName(key), ValueOf(v, key))];
      }
      i := i + 1;
    }
    FieldEntriesUnique(v, formData);
    if selectedImage.Some? {
      formData := formData + [FileField("image", selectedImage.value)];
    }
  }

  /** Every schema field other than the powers is sent under its name with
      its value. */
  lemma FormDataFields(v: FormValues, selectedImage: Option<FileRef>)
    ensures forall f :: f in SchemaFields && f != Pouvoirs ==>
      TextField(FieldName(f), ValueOf(v, f)) in FormDataOf(v, selectedImage)
  {
    var d := FormDataOf(v, selectedImage);
    var keys := Keys(v);
    forall f | f in SchemaFields && f != Pouvoirs ensures TextField(FieldName(f), ValueOf(v, f)) in d {
      var i :| 0 <= i < |SchemaFields| && SchemaFields[i] == f;
      assert d[i] == EntryFor(v, keys[i]);
    }
  }

  /** The powers are sent as the list the field yields, and no other list
      is sent. */
  lemma FormDataPowers(v: FormValues, selectedImage: Option<FileRef>)
    ensures PowersField("pouvoirs", ParsePowers(v.pouvoirs)) in FormDataOf(v, selectedImage)
    ensures forall e :: e in FormDataOf(v, selectedImage) && e.PowersField? ==>
      e == PowersField("pouvoirs", ParsePowers(v.pouvoirs))
  {
    PouvoirsEntryAtThree(v);
    PouvoirsEntry(v);
    var fields := FieldEntries(v);
    var file: seq<FormEntry> := if selectedImage.Some? then [FileField("image", selectedImage.value)] else [];
    assert FormDataOf(v, selectedImage) == fields + file;
    assert (fields + file)[3] == fields[3];
    forall e: FormEntry | e in fields + file && e.PowersField?
      ensures e == PowersField("pouvoirs", ParsePowers(v.pouvoirs))
    {
      if e in fields {
        var i :| 0 <= i < |fields| && fields[i] == e;
        PowersEntryIsPouvoirs(v, Keys(v)[i]);
      }
    }
  }

  /** `pouvoirs` is the fourth key. */
  lemma PouvoirsEntryAtThree(v: FormValues)
    ensures |FieldEntries(v)| > 3 && FieldEntries(v)[3] == EntryFor(v, Pouvoirs)
  {
    assert Keys(v)[3] == Pouvoirs;
  }

  /** Its entry is the parsed list. */
  lemma PouvoirsEntry(v: FormValues)
    ensures EntryFor(v, Pouvoirs) == PowersField("pouvoirs", ParsePowers(v.pouvoirs))
  {
  }

  /** Only the `pouvoirs` key yields a list. */
  lemma PowersEntryIsPouvoirs(v: FormValues, f: Field)
    requires EntryFor(v, f).PowersField?
    ensures f == Pouvoirs
    ensures EntryFor(v, f) == PowersField("pouvoirs", ParsePowers(v.pouvoirs))
  {
  }

  /** So every power sent is clean. */
  lemma SentPowersClean(v: FormValues, selectedImage: Option<FileRef>)
    ensures forall e, p :: e in FormDataOf(v, selectedImage) && e.PowersField? && p in e.powers ==>
      CleanPower(p)
  {
    FormDataPowers(v, selectedImage);
    ParsedPowersClean(v.pouvoirs);
  }

  /** A file is sent exactly when one is selected, and then as the last entry. */
  lemma FormDataFile(v: FormValues, selectedImage: Option<FileRef>)
    ensures var d := FormDataOf(v, selectedImage);
      ((exists e :: e in d && e.FileField?) <==> selectedImage.Some?)
      && (selectedImage.Some? ==> d[|d| - 1] == FileField("image", selectedImage.value))
  {
    var d := FormDataOf(v, selectedImage);
    var keys := Keys(v);
    if selectedImage.Some? {
      assert d[|d| - 1] == FileField("image", selectedImage.value);
      assert d[|d| - 1] in d;
    } else {
      assert d == FieldEntries(v);
      forall e | e in d ensures !e.FileField? {
        var i :| 0 <= i < |d| && d[i] == e;
        assert d[i] == EntryFor(v, keys[i]);
      }
    }
  }

  /** An `image` text entry is sent exactly when the image was removed, and
      it is then empty. */
  lemma FormDataImageText(v: FormValues, selectedImage: Option<FileRef>, x: string)
    ensures TextField("image", x) in FormDataOf(v, selectedImage) <==> v.image == Some(x)
  {
    var d := FormDataOf(v, selectedImage);
    var keys := Keys(v);
    if v.image == Some(x) {
      assert d[7] == EntryFor(v, keys[7]);
    }
    if TextField("image", x) in d {
      var i :| 0 <= i < |d| && d[i] == TextField("image", x);
      assert i < |keys| && d[i] == EntryFor(v, keys[i]);
    }
  }

  // ---------------------------------------------------------------------
  // The component's state
  // ---------------------------------------------------------------------

  class HeroFormState {
    var values: FormValues
    var imagePreview: Option<string>
    var selectedImage: Option<FileRef>

    /** The preview starts as the hero's image, when it has one. */
    constructor (hero: Option<Hero>)
      ensures values == InitialValues(hero)
      ensures imagePreview == if hero.Some? && hero.value.image != "" then Some(hero.value.image) else None
      ensures selectedImage.None?
    {
      values := InitialValues(hero);
      imagePreview := if hero.Some? && hero.value.image != "" then Some(hero.value.image) else None;
      selectedImage := None;
    }

    /** `handleImageChange`: only a chosen file changes anything; its data URL
        becomes the preview. */
    method HandleImageChange(file: Option<FileRef>, dataUrl: string)
      modifies this
      ensures file.Some? ==> selectedImage == file && imagePreview == Some(dataUrl)
      ensures file.None? ==> selectedImage == old(selectedImage) && imagePreview == old(imagePreview)
      ensures values == old(values)
    {
      if file.Some? {
        selectedImage := file;
        imagePreview := Some(dataUrl);
      }
    }

    /** `handleImageRemove`: no preview, no file, and an empty `image` value. */
    method HandleImageRemove()
      modifies this
      ensures imagePreview.None? && selectedImage.None?
      ensures values == old(values).(image := Some(""))
    {
      imagePreview := None;
      selectedImage := None;
      values := values.(image := Some(""));
    }

    /** A submission: formik calls `onSubmit` only when no field has an error. */
    method Submit() returns (submitted: Option<seq<FormEntry>>)
      ensures submitted.Some? <==> MeetsRules(values)
      ensures submitted.Some? ==> submitted.value == FormDataOf(values, selectedImage)
    {
      ErrorsIffRules(values);
      if Errors(values) == map[] {
        var d := BuildFormData(values, selectedImage);
        submitted := Some(d);
      } else {
        submitted := None;
      }
    }
  }
}

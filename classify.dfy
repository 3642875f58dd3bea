/**
 * The ordered classification tables of ingest.py and the functions that walk
 * them: `normalize_material` (ingest.py:184-196), `normalize_method`
 * (ingest.py:199-211), `normalize_state` (ingest.py:214-220),
 * `derive_state_from_ibra` (ingest.py:242-253) and `determine_method`
 * (ingest.py:275-312). Python dictionaries iterate in insertion order, so each
 * mapping is a sequence of (pattern, code) pairs and the first pattern that
 * occurs in the text decides.
 */
module Classify {
  import opened Wrappers
  import opened Text

  /** An ordered mapping from substring patterns to codes. */
  type Table<C> = seq<(string, C)>

  // ---------------------------------------------------------------------------
  // First-hit search
  // ---------------------------------------------------------------------------

  /** Entry `i` is the first entry whose pattern occurs in `text`. */
  predicate IsFirstHit<C>(table: Table<C>, text: string, i: int) {
    0 <= i < |table| && Contains(text, table[i].0)
    && forall j :: 0 <= j < i ==> !Contains(text, table[j].0)
  }

  /** No pattern of the table occurs in `text`. */
  predicate NoHit<C>(table: Table<C>, text: string) {
    forall j :: 0 <= j < |table| ==> !Contains(text, table[j].0)
  }

  /** The loop `for pattern, code in table.items(): if pattern in text: return ...`, from entry `k` on. */
  function FirstHitFrom<C>(table: Table<C>, text: string, k: nat): (r: Option<nat>)
    requires k <= |table|
    ensures r.Some? ==> k <= r.value < |table| && Contains(text, table[r.value].0)
    ensures r.Some? ==> forall j :: k <= j < r.value ==> !Contains(text, table[j].0)
    ensures r.None? ==> forall j :: k <= j < |table| ==> !Contains(text, table[j].0)
    decreases |table| - k
  {
    if k == |table| then None
    else if Contains(text, table[k].0) then Some(k)
    else FirstHitFrom(table, text, k + 1)
  }

  /** The index of the first entry whose pattern occurs in `text`, if any. */
  function FirstHit<C>(table: Table<C>, text: string): (r: Option<nat>)
    ensures r.Some? ==> IsFirstHit(table, text, r.value)
    ensures r.None? <==> NoHit(table, text)
  {
    FirstHitFrom(table, text, 0)
  }

  /** The code of the first entry whose pattern occurs in `text`, or `default`. */
  function LookupFirst<C>(table: Table<C>, text: string, default: C): (r: C)
    ensures NoHit(table, text) ==> r == default
    ensures !NoHit(table, text) ==> exists i :: IsFirstHit(table, text, i) && r == table[i].1
  {
    match FirstHit(table, text)
    case Some(i) => table[i].1
    case None => default
  }

  /** There is at most one first hit. */
  lemma FirstHitUnique<C>(table: Table<C>, text: string, i: int, j: int)
    requires IsFirstHit(table, text, i) && IsFirstHit(table, text, j)
    ensures i == j
  {
  }

  /** The search finds the first hit. */
  lemma FirstHitIs<C>(table: Table<C>, text: string, i: int)
    requires IsFirstHit(table, text, i)
    ensures FirstHit(table, text) == Some(i)
  {
    assert !NoHit(table, text);
    FirstHitUnique(table, text, i, FirstHit(table, text).value);
  }

  /** Being a substring is transitive. */
  lemma ContainsTrans(a: string, b: string, c: string)
    requires Contains(a, b) && Contains(b, c)
    ensures Contains(a, c)
  {
    var i :| 0 <= i <= |a| - |b| && OccursAt(a, b, i);
    var j :| 0 <= j <= |b| - |c| && OccursAt(b, c, j);
    forall k | 0 <= k < |c| ensures a[i + j..i + j + |c|][k] == c[k] {
      assert a[i + j + k] == a[i..i + |b|][j + k];
    }
    assert OccursAt(a, c, i + j);
  }

  /**
   * An entry whose pattern contains the pattern of an earlier entry can never
   * be the first hit: whatever text holds it also holds the earlier pattern.
   */
  lemma Shadowed<C>(table: Table<C>, text: string, i: int, j: int)
    requires 0 <= j < i < |table| && Contains(table[i].0, table[j].0)
    ensures FirstHit(table, text) != Some(i)
  {
    if Contains(text, table[i].0) {
      ContainsTrans(text, table[i].0, table[j].0);
    }
  }

  // ---------------------------------------------------------------------------
  // Materials
  // ---------------------------------------------------------------------------

  /** The sample material codes, with the two fallbacks `UNKNOWN` and `OTHER`. */
  datatype MaterialCode =
    | Charcoal | Wood | Bone | BoneBurnt | ShellUnspec | ShellMarine | ShellFreshwater | ShellTerrestrial
    | Seed | Peat | SoilOrg | Sediment | Hair | Eggshell | Resin | Fiber | Dung | Quartz | Feldspar | Sand
    | Calcite | ToothEnamel | Hearth | Ceramic | Unknown | Other
  {
    /** The code as stored in `sample_material.code`. */
    function Code(): string {
      match this
      case Charcoal => "CHARCOAL" case Wood => "WOOD" case Bone => "BONE" case BoneBurnt => "BONE_BURNT"
      case ShellUnspec => "SHELL_UNSPEC" case ShellMarine => "SHELL_MARINE"
      case ShellFreshwater => "SHELL_FRESHWATER" case ShellTerrestrial => "SHELL_TERRESTRIAL"
      case Seed => "SEED" case Peat => "PEAT" case SoilOrg => "SOIL_ORG" case Sediment => "SEDIMENT"
      case Hair => "HAIR" case Eggshell => "EGGSHELL" case Resin => "RESIN" case Fiber => "FIBER"
      case Dung => "DUNG" case Quartz => "QUARTZ" case Feldspar => "FELDSPAR" case Sand => "SAND"
      case Calcite => "CALCITE" case ToothEnamel => "TOOTH_ENAMEL" case Hearth => "HEARTH"
      case Ceramic => "CERAMIC" case Unknown => "UNKNOWN" case Other => "OTHER"
    }
  }

  /** `MATERIAL_MAPPING`, ingest.py:72-105, in listed order. */
  const MaterialTable: Table<MaterialCode> :=
    [("charcoal", Charcoal), ("wood", Wood), ("bone", Bone), ("burnt bone", BoneBurnt),
     ("calcined bone", BoneBurnt)]
    + [("shell", ShellUnspec), ("marine shell", ShellMarine), ("freshwater shell", ShellFreshwater),
       ("land snail", ShellTerrestrial)]
    + [("seed", Seed), ("seeds", Seed), ("plant", Seed), ("peat", Peat), ("soil", SoilOrg),
       ("sediment", Sediment), ("organic", SoilOrg)]
    + [("hair", Hair), ("eggshell", Eggshell), ("emu eggshell", Eggshell), ("resin", Resin),
       ("fibre", Fiber), ("fiber", Fiber), ("dung", Dung)]
    + [("quartz", Quartz), ("feldspar", Feldspar), ("sand", Sand), ("calcite", Calcite)]
    + [("tooth", ToothEnamel), ("enamel", ToothEnamel), ("hearth", Hearth), ("ceramic", Ceramic),
       ("pottery", Ceramic)]

  /** `normalize_material` */
  function NormalizeMaterial(description: string): MaterialCode {
    if description == [] then Unknown
    else LookupFirst(MaterialTable, Strip(Lower(description)), Other)
  }

  /** The code of the first pattern occurring in the lower-cased, stripped description; `OTHER` when none does. */
  lemma NormalizeMaterialFirstHit(description: string)
    ensures var r := NormalizeMaterial(description);
      (description == [] ==> r == Unknown)
      && (description != [] && NoHit(MaterialTable, Strip(Lower(description))) ==> r == Other)
      && (description != [] && !NoHit(MaterialTable, Strip(Lower(description))) ==>
        exists i :: IsFirstHit(MaterialTable, Strip(Lower(description)), i) && r == MaterialTable[i].1)
  {
    if description != [] {
      var t := Strip(Lower(description));
      assert NormalizeMaterial(description) == LookupFirst(MaterialTable, t, Other);
    }
  }

  lemma MaterialTableCodes(i: nat)
    requires i < |MaterialTable|
    ensures MaterialTable[i].1 !in {Unknown, Other}
    ensures MaterialTable[i].1 in {BoneBurnt, ShellMarine, ShellFreshwater, Eggshell} ==> i in {3, 4, 6, 7, 17, 18}
  {
  }

  /** `UNKNOWN` is returned exactly for an empty description, and `OTHER` exactly when no pattern occurs. */
  lemma NormalizeMaterialFallbacks(description: string)
    ensures NormalizeMaterial(description) == Unknown <==> description == []
    ensures NormalizeMaterial(description) == Other <==> description != [] && NoHit(MaterialTable, Strip(Lower(description)))
  {
    if description != [] {
      match FirstHit(MaterialTable, Strip(Lower(description)))
      case None =>
      case Some(i) => MaterialTableCodes(i);
    }
  }

  /** The burnt, calcined and shell patterns contain the earlier `bone` and `shell`. */
  lemma MaterialShadowing()
    ensures Contains(MaterialTable[3].0, MaterialTable[2].0) && Contains(MaterialTable[4].0, MaterialTable[2].0)
    ensures Contains(MaterialTable[6].0, MaterialTable[5].0) && Contains(MaterialTable[7].0, MaterialTable[5].0)
    ensures Contains(MaterialTable[17].0, MaterialTable[5].0) && Contains(MaterialTable[18].0, MaterialTable[5].0)
  {
    assert OccursAt("burnt bone", "bone", 6);
    assert OccursAt("calcined bone", "bone", 9);
    assert OccursAt("marine shell", "shell", 7);
    assert OccursAt("freshwater shell", "shell", 11);
    assert OccursAt("eggshell", "shell", 3);
    assert OccursAt("emu eggshell", "shell", 7);
  }

  /** A first hit in the material table never carries a shadowed code. */
  lemma MaterialFirstHitReachable(m: string)
    ensures FirstHit(MaterialTable, m).Some? ==>
      MaterialTable[FirstHit(MaterialTable, m).value].1 !in {BoneBurnt, ShellMarine, ShellFreshwater, Eggshell}
  {
    MaterialShadowing();
    Shadowed(MaterialTable, m, 3, 2);
    Shadowed(MaterialTable, m, 4, 2);
    Shadowed(MaterialTable, m, 6, 5);
    Shadowed(MaterialTable, m, 7, 5);
    Shadowed(MaterialTable, m, 17, 5);
    Shadowed(MaterialTable, m, 18, 5);
    if FirstHit(MaterialTable, m).Some? {
      MaterialTableCodes(FirstHit(MaterialTable, m).value);
    }
  }

  /**
   * Four codes of the table can never be produced: every pattern that carries
   * one of them contains `bone` or `shell`, which are listed earlier.
   */
  lemma NormalizeMaterialUnreachable(description: string)
    ensures NormalizeMaterial(description) !in {BoneBurnt, ShellMarine, ShellFreshwater, Eggshell}
  {
    if description != [] {
      MaterialFirstHitReachable(Strip(Lower(description)));
    }
  }

  lemma BurntBoneHit()
    ensures IsFirstHit(MaterialTable, "burnt bone", 2) && MaterialTable[2].1 == Bone
  {
    NotContainsByChar("burnt bone", "charcoal", 0);
    NotContainsByChar("burnt bone", "wood", 0);
    assert OccursAt("burnt bone", "bone", 6);
  }

  /** `burnt bone`, in any letter case and padding, is classified as plain bone, since `bone` is listed first. */
  lemma NormalizeMaterialBurntBone(description: string)
    requires Strip(Lower(description)) == "burnt bone"
    ensures NormalizeMaterial(description) == Bone
  {
    BurntBoneHit();
    NormalizeMaterialOfKey(description, "burnt bone", 2);
  }

  /** What `normalize_material` returns once the first hit in the stripped, lower-cased text is known. */
  lemma NormalizeMaterialOfKey(description: string, key: string, i: nat)
    requires Strip(Lower(description)) == key && IsFirstHit(MaterialTable, key, i)
    ensures NormalizeMaterial(description) == MaterialTable[i].1
  {
    FirstHitIs(MaterialTable, key, i);
  }

  // ---------------------------------------------------------------------------
  // Methods
  // ---------------------------------------------------------------------------

  /** The dating method codes. */
  datatype MethodCode = C14 | Ams | Conv | Osl | Tl | Irsl | UTh | Esr | Aar | Cosmo
  {
    /** The code as stored in `dating_method.code`. */
    function Code(): string {
      match this
      case C14 => "C14" case Ams => "AMS" case Conv => "CONV" case Osl => "OSL" case Tl => "TL"
      case Irsl => "IRSL" case UTh => "U-TH" case Esr => "ESR" case Aar => "AAR" case Cosmo => "COSMO"
    }

    /** The radiocarbon family, whose ages are recorded as C14 ages (ingest.py:640-641). */
    predicate IsRadiocarbon() {
      this in {C14, Ams, Conv}
    }

    /** The luminescence family, whose ages are also recorded in ka (ingest.py:601-606). */
    predicate IsLuminescence() {
      this in {Osl, Tl, Irsl}
    }
  }

  /** `METHOD_MAPPING`, ingest.py:108-127, in listed order. */
  const MethodTable: Table<MethodCode> :=
    [("radiocarbon", C14), ("c14", C14), ("ams", Ams), ("accelerator", Ams), ("conventional", Conv)]
    + [("osl", Osl), ("optically stimulated", Osl), ("tl", Tl), ("thermoluminescence", Tl), ("irsl", Irsl)]
    + [("u-th", UTh), ("uranium", UTh), ("u-series", UTh)]
    + [("esr", Esr), ("electron spin", Esr), ("aar", Aar), ("amino acid", Aar), ("cosmogenic", Cosmo)]

  /** `normalize_method`: the first pattern that occurs decides, radiocarbon (`C14`) otherwise. */
  function NormalizeMethod(description: string): (r: MethodCode)
    ensures description == [] ==> r == C14
    ensures description != [] && NoHit(MethodTable, Strip(Lower(description))) ==> r == C14
    ensures description != [] && !NoHit(MethodTable, Strip(Lower(description))) ==>
      exists i :: IsFirstHit(MethodTable, Strip(Lower(description)), i) && r == MethodTable[i].1
  {
    if description == [] then C14
    else LookupFirst(MethodTable, Strip(Lower(description)), C14)
  }

  /** The keyword tests of `determine_method`, ingest.py:280-299, flattened in the order they are made. */
  const MethodKeywords: Table<MethodCode> :=
    [("osl", Osl), ("optically stimulated", Osl), ("tl", Tl), ("thermoluminescence", Tl), ("irsl", Irsl)]
    + [("u-th", UTh), ("uranium", UTh), ("u-series", UTh), ("esr", Esr), ("electron spin", Esr),
       ("aar", Aar), ("amino acid", Aar)]
    + [("ams", Ams), ("accelerator", Ams), ("conventional", Conv), ("radiometric", Conv)]

  /** Lab code prefixes of accelerator (AMS) laboratories, ingest.py:305. */
  const AmsLabPrefixes: seq<string> := ["OZ", "SANU", "ANUA", "CAMS", "AA-", "BETA", "UBA", "UCIAMS", "D-AMS"]

  /** Lab code prefixes of conventional (radiometric) laboratories, ingest.py:308. */
  const ConvLabPrefixes: seq<string> := ["I-", "GX-", "GAK-", "SUA-", "ANU-", "NZ-", "GRN-", "W-"]

  /** The text the keyword tests look at: method and technique joined by a space, lower-cased. */
  function Combined(methodText: string, technique: string): string {
    Lower(methodText + " " + technique)
  }

  /** The method a lab code alone suggests, ingest.py:301-312. */
  function LabMethod(labCode: string): (r: MethodCode)
    ensures r.IsRadiocarbon()
  {
    if labCode == [] then C14
    else if StartsWithAny(Upper(labCode), AmsLabPrefixes) then Ams
    else if StartsWithAny(Upper(labCode), ConvLabPrefixes) then Conv
    else C14
  }

  /** `determine_method` */
  function DetermineMethod(methodText: string, technique: string, labCode: string): MethodCode {
    LookupFirst(MethodKeywords, Combined(methodText, technique), LabMethod(labCode))
  }

  /** A keyword in the method or technique text decides first; otherwise the lab-code prefix does. Never `COSMO`. */
  lemma DetermineMethodFirstHit(methodText: string, technique: string, labCode: string)
    ensures var r := DetermineMethod(methodText, technique, labCode);
      r != Cosmo
      && (!NoHit(MethodKeywords, Combined(methodText, technique)) ==>
        exists i :: IsFirstHit(MethodKeywords, Combined(methodText, technique), i) && r == MethodKeywords[i].1)
      && (NoHit(MethodKeywords, Combined(methodText, technique)) ==> r == LabMethod(labCode))
  {
  }

  /** When some pattern occurs, the default plays no part. */
  lemma LookupFirstIgnoresDefault<C>(table: Table<C>, text: string, d1: C, d2: C)
    requires !NoHit(table, text)
    ensures LookupFirst(table, text, d1) == LookupFirst(table, text, d2)
  {
  }

  /** When the pattern of entry `k` occurs, the result is the code of entry `k` or of an earlier one. */
  lemma LookupFirstNoLater<C>(table: Table<C>, text: string, d: C, k: nat) returns (i: nat)
    requires k < |table| && Contains(text, table[k].0)
    ensures i <= k && LookupFirst(table, text, d) == table[i].1
  {
    i := FirstHit(table, text).value;
    FirstHitNoLater(table, text, k, i);
  }

  /** The first hit comes no later than any entry whose pattern occurs. */
  lemma FirstHitNoLater<C>(table: Table<C>, text: string, k: nat, i: int)
    requires k < |table| && Contains(text, table[k].0) && IsFirstHit(table, text, i)
    ensures i <= k
  {
  }

  /** Once a keyword occurs in the method or technique text, the lab code plays no part. */
  lemma DetermineMethodKeywordsFirst(methodText: string, technique: string, lab1: string, lab2: string)
    requires !NoHit(MethodKeywords, Combined(methodText, technique))
    ensures DetermineMethod(methodText, technique, lab1) == DetermineMethod(methodText, technique, lab2)
  {
    LookupFirstIgnoresDefault(MethodKeywords, Combined(methodText, technique), LabMethod(lab1), LabMethod(lab2));
  }

  /** The first five keywords are the luminescence ones. */
  lemma LuminescenceKeywords(i: nat)
    requires i < 5
    ensures MethodKeywords[i].1.IsLuminescence()
  {
  }

  /** Luminescence keywords are tested first: when one occurs, the result is a luminescence method. */
  lemma DetermineMethodLuminescenceFirst(methodText: string, technique: string, labCode: string, k: nat)
    requires k < 5 && Contains(Combined(methodText, technique), MethodKeywords[k].0)
    ensures DetermineMethod(methodText, technique, labCode).IsLuminescence()
  {
    var i := LookupFirstNoLater(MethodKeywords, Combined(methodText, technique), LabMethod(labCode), k);
    LuminescenceKeywords(i);
  }

  /** Two prefixes that differ at a position both have cannot both start the same text. */
  lemma PrefixClash(s: string, a: string, c: string, d: nat)
    requires d < |a| && d < |c| && a[d] != c[d]
    ensures !(StartsWith(s, a) && StartsWith(s, c))
  {
    if StartsWith(s, a) {
      assert s[d] == s[..|a|][d] == a[d];
    }
  }

  /** No lab code starts with both an AMS prefix and a conventional prefix, so the order of the two tests is immaterial. */
  lemma LabPrefixesDisjoint(s: string)
    ensures !(StartsWithAny(s, AmsLabPrefixes) && StartsWithAny(s, ConvLabPrefixes))
  {
    forall i, j | 0 <= i < |AmsLabPrefixes| && 0 <= j < |ConvLabPrefixes|
      ensures !(StartsWith(s, AmsLabPrefixes[i]) && StartsWith(s, ConvLabPrefixes[j]))
    {
      var a, c := AmsLabPrefixes[i], ConvLabPrefixes[j];
      if a[0] != c[0] {
        PrefixClash(s, a, c, 0);
      } else if a[1] != c[1] {
        PrefixClash(s, a, c, 1);
      } else {
        PrefixClash(s, a, c, 3);
      }
    }
  }

  /** The lab-code method by prefix: each outcome holds exactly when its prefix test does. */
  lemma LabMethodByPrefix(labCode: string)
    ensures LabMethod(labCode) == Ams <==> StartsWithAny(Upper(labCode), AmsLabPrefixes)
    ensures LabMethod(labCode) == Conv <==> StartsWithAny(Upper(labCode), ConvLabPrefixes)
  {
    LabPrefixesDisjoint(Upper(labCode));
    if labCode == [] {
      forall i | 0 <= i < |AmsLabPrefixes| ensures !StartsWith([], AmsLabPrefixes[i]) {}
      forall i | 0 <= i < |ConvLabPrefixes| ensures !StartsWith([], ConvLabPrefixes[i]) {}
    }
  }

  /** The prefix test ignores letter case. */
  lemma LabMethodCaseless(labCode: string)
    ensures LabMethod(Lower(labCode)) == LabMethod(labCode)
  {
    UpperOfLower(labCode);
  }

  /** With neither method nor technique given, a lower-case accelerator lab code still gives `AMS`. */
  lemma DetermineMethodFromLabCode()
    ensures DetermineMethod("", "", "oz-1234") == Ams
  {
    BlankCombinedNoHit();
    AcceleratorLabCode();
  }

  lemma BlankCombinedNoHit()
    ensures NoHit(MethodKeywords, Combined("", ""))
  {
    assert Combined("", "") == " ";
    forall j | 0 <= j < |MethodKeywords| ensures !Contains(" ", MethodKeywords[j].0) {}
  }

  lemma AcceleratorLabCode()
    ensures LabMethod("oz-1234") == Ams
  {
    assert Upper("oz-1234") == "OZ-1234";
    assert StartsWith("OZ-1234", AmsLabPrefixes[0]);
  }

  // ---------------------------------------------------------------------------
  // States
  // ---------------------------------------------------------------------------

  /** The eight state and territory codes. */
  datatype StateCode = Nsw | Vic | Qld | Sa | Wa | Nt | Tas | Act
  {
    function Code(): (r: string)
      ensures 2 <= |r| <= 3 && forall i :: 0 <= i < |r| ==> IsUpperLetter(r[i])
    {
      match this
      case Nsw => "NSW" case Vic => "VIC" case Qld => "QLD" case Sa => "SA"
      case Wa => "WA" case Nt => "NT" case Tas => "TAS" case Act => "ACT"
    }
  }

  /** `STATE_MAPPING`, ingest.py:130-146. */
  const StateTable: Table<StateCode> :=
    [("nsw", Nsw), ("new south wales", Nsw), ("vic", Vic), ("victoria", Vic), ("qld", Qld),
     ("queensland", Qld), ("sa", Sa), ("south australia", Sa)]
    + [("wa", Wa), ("western australia", Wa), ("nt", Nt), ("northern territory", Nt), ("tas", Tas),
       ("tasmania", Tas), ("act", Act)]

  /** `table.get(key)`: the code of the first entry whose pattern is exactly `key`. */
  function LookupExact<C>(table: Table<C>, key: string): (r: Option<C>)
    ensures r.None? <==> forall i :: 0 <= i < |table| ==> table[i].0 != key
    ensures r.Some? ==> exists i :: 0 <= i < |table| && table[i].0 == key && r.value == table[i].1
  {
    if table == [] then None
    else if table[0].0 == key then Some(table[0].1)
    else
      var r := LookupExact(table[1..], key);
      assert forall i :: 1 <= i < |table| ==> table[i] == table[1..][i - 1];
      r
  }

  /** `state.upper()[:3]` */
  function Upper3(state: string): (r: string)
    ensures |r| == if |state| < 3 then |state| else 3
    ensures forall i :: 0 <= i < |r| ==> r[i] == UpperChar(state[i])
    ensures forall i :: 0 <= i < |r| ==> !IsLowerLetter(r[i])
  {
    var u := Upper(state);
    if |u| < 3 then u else u[..3]
  }

  /** `normalize_state`: exact lookup of the stripped, lower-cased name; else the first three characters upper-cased. */
  function NormalizeState(state: string): (r: Option<string>)
    ensures r.None? <==> state == []
    ensures r.Some? ==> 1 <= |r.value| <= 3 && forall i :: 0 <= i < |r.value| ==> !IsLowerLetter(r.value[i])
  {
    if state == [] then None
    else
      match LookupExact(StateTable, Strip(Lower(state)))
      case Some(code) => Some(code.Code())
      case None => Some(Upper3(state))
  }

  /** An exact lookup finds the first entry carrying the key. */
  lemma {:induction false} LookupExactAt<C>(table: Table<C>, i: nat)
    requires i < |table| && forall j :: 0 <= j < i ==> table[j].0 != table[i].0
    ensures LookupExact(table, table[i].0) == Some(table[i].1)
  {
    if i > 0 {
      assert table[0].0 != table[i].0;
      var rest := table[1..];
      assert rest[i - 1] == table[i];
      forall j | 0 <= j < i - 1 ensures rest[j].0 != rest[i - 1].0 {
        assert rest[j] == table[j + 1];
      }
      LookupExactAt(rest, i - 1);
    }
  }

  lemma LookupStateAt(state: string, i: nat)
    requires i < |StateTable| && Strip(Lower(state)) == StateTable[i].0
    requires forall j :: 0 <= j < i ==> StateTable[j].0 != StateTable[i].0
    ensures LookupExact(StateTable, Strip(Lower(state))) == Some(StateTable[i].1)
  {
    LookupExactAt(StateTable, i);
  }

  /** What `normalize_state` returns once the stripped, lower-cased name is known to be a key. */
  lemma NormalizeStateOfKey(state: string, key: string, code: StateCode)
    requires key != [] && Strip(Lower(state)) == key && LookupExact(StateTable, key) == Some(code)
    ensures NormalizeState(state) == Some(code.Code())
  {
  }

  lemma NewSouthWalesLookup()
    ensures LookupExact(StateTable, "new south wales") == Some(Nsw)
  {
    assert StateTable[1] == ("new south wales", Nsw) && StateTable[0].0 != "new south wales";
    LookupExactAt(StateTable, 1);
  }

  /** A full state name, in any letter case and padding, maps to its code. */
  lemma NormalizeStateFullName(state: string)
    requires Strip(Lower(state)) == "new south wales"
    ensures NormalizeState(state) == Some("NSW")
  {
    NewSouthWalesLookup();
    NormalizeStateOfKey(state, "new south wales", Nsw);
  }

  /** A name the table does not list comes back as its own first three characters, upper-cased. */
  lemma NormalizeStateFallback(state: string)
    requires state != [] && LookupExact(StateTable, Strip(Lower(state))).None?
    ensures NormalizeState(state).Some?
    ensures var r := NormalizeState(state).value;
      |r| == (if |state| < 3 then |state| else 3)
      && forall i :: 0 <= i < |r| ==> r[i] == UpperChar(state[i])
  {
  }

  /**
   * A name the table does not know keeps its first three characters, taken
   * from the text before stripping: leading whitespace survives.
   */
  lemma NormalizeStateUnknown(state: string)
    requires state != [] && IsSpace(state[0]) && LookupExact(StateTable, Strip(Lower(state))).None?
    ensures NormalizeState(state).Some? && NormalizeState(state).value[0] == state[0]
  {
  }

  /** The entry of the state table whose key is the lower-cased code. */
  lemma StateCodeEntry(code: StateCode) returns (i: nat)
    ensures i < |StateTable| && StateTable[i] == (Lower(code.Code()), code)
    ensures forall j :: 0 <= j < i ==> StateTable[j].0 != StateTable[i].0
  {
    i := match code
      case Nsw => 0 case Vic => 2 case Qld => 4 case Sa => 6
      case Wa => 8 case Nt => 10 case Tas => 12 case Act => 14;
    assert Lower(code.Code()) == StateTable[i].0;
  }

  lemma StateKeyStripped(code: StateCode)
    ensures Strip(Lower(code.Code())) == Lower(code.Code())
  {
    var c := code.Code();
    var l := Lower(c);
    assert IsLowerLetter(l[0]) && IsLowerLetter(l[|l| - 1]);
    StripUnchanged(l);
  }

  /** A state code in any letter case and padding normalises to the code. */
  lemma NormalizeStateAbbreviation(state: string, code: StateCode)
    requires Strip(Lower(state)) == Lower(code.Code())
    ensures NormalizeState(state) == Some(code.Code())
  {
    var i := StateCodeEntry(code);
    LookupStateAt(state, i);
    NormalizeStateOfKey(state, StateTable[i].0, code);
  }

  /** Every state code is its own normal form. */
  lemma NormalizeStateCode(code: StateCode)
    ensures NormalizeState(code.Code()) == Some(code.Code())
  {
    StateKeyStripped(code);
    NormalizeStateAbbreviation(code.Code(), code);
  }

  // ---------------------------------------------------------------------------
  // IBRA bioregions
  // ---------------------------------------------------------------------------

  /** `IBRA_STATE_HINTS`, ingest.py:224-239, in listed order. */
  const IbraTable: Table<StateCode> :=
    [("sydney", Nsw), ("riverina", Nsw), ("darling", Nsw), ("murray", Nsw), ("south east corner", Nsw),
     ("nandewar", Nsw), ("new england", Nsw)]
    + [("brigalow", Qld), ("cape york", Qld), ("wet tropics", Qld), ("einasleigh", Qld), ("mulga", Qld),
       ("mitchell", Qld), ("gulf", Qld)]
    + [("gippsland", Vic), ("victorian", Vic), ("mallee", Vic)]
    + [("nullarbor", Sa), ("flinders", Sa), ("eyre", Sa), ("gawler", Sa), ("simpson", Sa),
       ("stony plains", Sa), ("naracoorte", Sa)]
    + [("pilbara", Wa), ("kimberley", Wa), ("carnarvon", Wa), ("murchison", Wa), ("geraldton", Wa),
       ("swan", Wa), ("jarrah", Wa), ("esperance", Wa), ("coolgardie", Wa), ("gibson", Wa),
       ("great victoria", Wa), ("little sandy", Wa)]
    + [("arnhem", Nt), ("darwin", Nt), ("tanami", Nt), ("macdonnell", Nt), ("finke", Nt),
       ("barkly", Nt), ("sturt", Nt), ("pine creek", Nt)]
    + [("tasmanian", Tas), ("furneaux", Tas), ("king", Tas)]
    + [("australian alps", Act)]

  /** `derive_state_from_ibra` */
  function DeriveStateFromIbra(region: string): Option<StateCode> {
    if region == [] then None
    else
      match FirstHit(IbraTable, Strip(Lower(region)))
      case Some(i) => Some(IbraTable[i].1)
      case None => None
  }

  /** A state exactly when some hint occurs in the region name, and then the state of the first such hint. */
  lemma DeriveStateFromIbraFirstHit(region: string)
    ensures var r := DeriveStateFromIbra(region);
      (r.None? <==> region == [] || NoHit(IbraTable, Strip(Lower(region))))
      && (r.Some? ==> exists i :: IsFirstHit(IbraTable, Strip(Lower(region)), i) && r.value == IbraTable[i].1)
  {
  }

  lemma SydneyHit()
    ensures IsFirstHit(IbraTable, "sydney basin", 0)
  {
    assert OccursAt("sydney basin", "sydney", 0);
  }

  /** The `Sydney Basin` bioregion, in any letter case and padding, is placed in NSW by the first hint. */
  lemma DeriveStateSydney(region: string)
    requires Strip(Lower(region)) == "sydney basin"
    ensures DeriveStateFromIbra(region) == Some(Nsw)
  {
    SydneyHit();
    FirstHitIs(IbraTable, "sydney basin", 0);
  }
}

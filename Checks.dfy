/** The check registry shared by both agent scripts: three deterministic
    validators over a package file name, each returning a small verdict
    record (the scripts JSON-encode it; here it is a datatype). */
module Checks {
  import opened Wrappers
  import opened Text

  /** The three registered tools. */
  datatype Tool = PackageStructure | SecurityCompliance | ResourceRequirements

  /** The registry `available_tools`, in its insertion order. */
  const REGISTRY: seq<Tool> := [PackageStructure, SecurityCompliance, ResourceRequirements]

  /** The key under which each tool is registered (its Python function name). */
  function Name(t: Tool): string {
    match t
    case PackageStructure => "check_vnf_package_structure"
    case SecurityCompliance => "check_security_compliance"
    case ResourceRequirements => "check_resource_requirements"
  }

  const STRUCTURE_DOC := "Tool 1: Checks VNF package name and extension (.zip)."
  const COMPLIANCE_DOC := "Tool 2: Simulates a security check for trusted vendors."
  const RESOURCES_DOC := "Tool 3: Simulates checking resource limits from the package."

  /** Each tool function's docstring. */
  function Doc(t: Tool): string {
    match t
    case PackageStructure => STRUCTURE_DOC
    case SecurityCompliance => COMPLIANCE_DOC
    case ResourceRequirements => RESOURCES_DOC
  }

  /** Every tool has a docstring, so `fn.__doc__ or name` is the docstring. */
  lemma DocNonEmpty(t: Tool)
    ensures Doc(t) != ""
  {
    assert |STRUCTURE_DOC| > 0 && |COMPLIANCE_DOC| > 0 && |RESOURCES_DOC| > 0;
  }

  /** `available_tools[name]` when the name is registered. */
  function ToolNamed(name: string): (t: Option<Tool>)
    ensures t.Some? ==> Name(t.value) == name
    ensures t.None? ==> forall u: Tool :: Name(u) != name
  {
    if name == Name(PackageStructure) then Some(PackageStructure)
    else if name == Name(SecurityCompliance) then Some(SecurityCompliance)
    else if name == Name(ResourceRequirements) then Some(ResourceRequirements)
    else None
  }

  /** The registry lists every tool once, and names identify tools. */
  lemma RegistryWellFormed()
    ensures forall t: Tool :: t in REGISTRY && ToolNamed(Name(t)) == Some(t)
    ensures forall i, j :: 0 <= i < j < |REGISTRY| ==> Name(REGISTRY[i]) != Name(REGISTRY[j])
  {
    forall t: Tool
      ensures t in REGISTRY && ToolNamed(Name(t)) == Some(t)
    {
      assert REGISTRY[0] == PackageStructure && REGISTRY[1] == SecurityCompliance;
      assert REGISTRY[2] == ResourceRequirements;
      assert Name(PackageStructure)[6] != Name(SecurityCompliance)[6];
      assert Name(PackageStructure)[6] != Name(ResourceRequirements)[6];
      assert Name(SecurityCompliance)[6] != Name(ResourceRequirements)[6];
      match t
      case PackageStructure =>
      case SecurityCompliance =>
      case ResourceRequirements =>
    }
  }

  /** A check's verdict: each check has its own shape of record. */
  datatype Verdict =
    | StructureVerdict(isValid: bool, reason: string)
    | ComplianceVerdict(isCompliant: bool, reason: string)
    | ResourceVerdict(isWithinLimits: bool, reason: string)

  const BAD_EXTENSION := "Invalid file extension. Expected .zip."
  const NAMING_VIOLATION := "Naming convention violation. Expected: vendor_name_version.zip."
  const STRUCTURE_OK := "Package structure and naming are valid."
  const TRUSTED_VENDORS: seq<string> := ["cisco", "juniper", "paloalto"]
  const HIGH_CPU := "VNF requires high CPU (32 cores), exceeding standard limit."
  const WITHIN_LIMITS := "Resource requirements are within standard limits."

  /** `check_vnf_package_structure`: the name must end in `.zip` (case
      matters) and the stem must split on `_` into at least three pieces,
      that is, hold at least two underscores. */
  function CheckPackageStructure(fileName: string): (v: Verdict)
    ensures v.StructureVerdict?
    ensures !EndsWith(fileName, ".zip") ==> v == StructureVerdict(false, BAD_EXTENSION)
    ensures EndsWith(fileName, ".zip") ==>
      (v.isValid <==> Count(fileName[..|fileName| - 4], '_') >= 2)
    ensures EndsWith(fileName, ".zip") && !v.isValid ==> v.reason == NAMING_VIOLATION
    ensures v.isValid ==> v.reason == STRUCTURE_OK
  {
    if !EndsWith(fileName, ".zip") then StructureVerdict(false, BAD_EXTENSION)
    else
      var stem := RemoveSuffix(fileName, ".zip");
      SplitCount(stem, '_');
      if |Split(stem, '_')| < 3 then StructureVerdict(false, NAMING_VIOLATION)
      else StructureVerdict(true, STRUCTURE_OK)
  }

  /** `check_security_compliance`: the vendor is the first `_`-piece of the
      name; it is trusted when its lower-case form is one of the three
      trusted vendors. The reason quotes the vendor as written. */
  function CheckSecurityCompliance(fileName: string): (v: Verdict)
    ensures v.ComplianceVerdict?
    ensures var vendor := fileName[..FirstIndex(fileName, '_')];
      && (v.isCompliant <==> Lower(vendor) in TRUSTED_VENDORS)
      && v.reason == "Vendor '" + vendor + (if v.isCompliant then "' is trusted." else "' is not trusted.")
  {
    var vendor := Split(fileName, '_')[0];
    SplitFirst(fileName, '_');
    if Lower(vendor) in TRUSTED_VENDORS then ComplianceVerdict(true, "Vendor '" + vendor + "' is trusted.")
    else ComplianceVerdict(false, "Vendor '" + vendor + "' is not trusted.")
  }

  /** `w` occurs in `s` at `i` when case is ignored (`w` is lower case). */
  predicate OccursFoldedAt(s: string, w: string, i: int) {
    0 <= i && i + |w| <= |s| && Lower(s[i..i + |w|]) == w
  }

  lemma ContainsLowerIff(s: string, w: string)
    ensures Contains(Lower(s), w) <==> exists i :: OccursFoldedAt(s, w, i)
  {
    if Contains(Lower(s), w) {
      var i :| 0 <= i <= |Lower(s)| && OccursAt(Lower(s), w, i);
      LowerSlice(s, i, i + |w|);
      assert OccursFoldedAt(s, w, i);
    }
    if i :| OccursFoldedAt(s, w, i) {
      LowerSlice(s, i, i + |w|);
      assert OccursAt(Lower(s), w, i);
    }
  }

  /** `check_resource_requirements`: over the limit exactly when `highcpu`
      occurs in the name, in any mix of case. */
  function CheckResourceRequirements(fileName: string): (v: Verdict)
    ensures v.ResourceVerdict?
    ensures !v.isWithinLimits <==> exists i :: OccursFoldedAt(fileName, "highcpu", i)
    ensures v.reason == if v.isWithinLimits then WITHIN_LIMITS else HIGH_CPU
  {
    ContainsLowerIff(fileName, "highcpu");
    if Contains(Lower(fileName), "highcpu") then ResourceVerdict(false, HIGH_CPU)
    else ResourceVerdict(true, WITHIN_LIMITS)
  }

  /** Calling a registered tool function on a file name. */
  function RunCheck(t: Tool, fileName: string): (v: Verdict)
    ensures v.StructureVerdict? <==> t == PackageStructure
    ensures v.ComplianceVerdict? <==> t == SecurityCompliance
    ensures v.ResourceVerdict? <==> t == ResourceRequirements
  {
    match t
    case PackageStructure => CheckPackageStructure(fileName)
    case SecurityCompliance => CheckSecurityCompliance(fileName)
    case ResourceRequirements => CheckResourceRequirements(fileName)
  }

  lemma {:induction false} CountConcat(a: string, b: string, c: char)
    ensures Count(a + b, c) == Count(a, c) + Count(b, c)
  {
    if a != [] {
      assert (a + b)[0] == a[0];
      assert (a + b)[1..] == a[1..] + b;
      CountConcat(a[1..], b, c);
    } else {
      assert a + b == b;
    }
  }

  /** A name following the `vendor_name_version.zip` convention passes the
      structure check, whatever the three parts hold. */
  lemma ConventionalNameIsValid(vendor: string, product: string, version: string)
    ensures CheckPackageStructure(vendor + "_" + product + "_" + version + ".zip").isValid
  {
    var stem := vendor + "_" + product + "_" + version;
    var name := stem + ".zip";
    assert name[..|name| - 4] == stem;
    assert name[|name| - 4..] == ".zip";
    CountConcat(vendor + "_" + product + "_", version, '_');
    CountConcat(vendor + "_" + product, "_", '_');
    CountConcat(vendor + "_", product, '_');
    CountConcat(vendor, "_", '_');
    assert Count("_", '_') == 1;
  }

  /** The vendor of `vendor_rest` is `vendor` when it holds no underscore:
      the name is compliant exactly when that vendor, in lower case, is
      trusted, whatever follows it. */
  lemma ComplianceByVendor(vendor: string, rest: string)
    requires '_' !in vendor
    ensures CheckSecurityCompliance(vendor + "_" + rest).isCompliant <==> Lower(vendor) in TRUSTED_VENDORS
  {
    var name := vendor + "_" + rest;
    assert name[|vendor|] == '_';
    assert forall j :: 0 <= j < |vendor| ==> name[j] == vendor[j];
    assert FirstIndex(name, '_') == |vendor|;
    assert name[..|vendor|] == vendor;
  }

  /** The resource check ignores case: upper-case `HIGHCPU` is over the
      limit too, wherever it stands. */
  lemma HighCpuAnyCase(before: string, word: string, after: string)
    requires Lower(word) == "highcpu"
    ensures !CheckResourceRequirements(before + word + after).isWithinLimits
  {
    var name := before + word + after;
    assert name[|before|..|before| + |word|] == word;
    assert OccursFoldedAt(name, "highcpu", |before|);
  }
}

/**
 * The static registry of role profiles: for each of the four role categories, four
 * keyword lists (skills, experience, education, certifications) and the weight of each
 * dimension. Weights are exact fractions.
 */
module RoleProfiles {

  datatype RoleCategory = CustomerService | MedicalAssistants | NPs | RNs

  /** The category's display name, used in reasoning sentences and role lookups by name. */
  function RoleName(r: RoleCategory): string
  {
    match r
    case CustomerService => "Customer Service"
    case MedicalAssistants => "Medical Assistants"
    case NPs => "NPs"
    case RNs => "RNs"
  }

  /** The registry's iteration order. */
  const AllRoles: seq<RoleCategory> := [CustomerService, MedicalAssistants, NPs, RNs]

  /** The position of a role in the registry's iteration order. */
  function RoleIndex(r: RoleCategory): (i: nat)
    ensures i < |AllRoles| && AllRoles[i] == r
  {
    match r
    case CustomerService => 0
    case MedicalAssistants => 1
    case NPs => 2
    case RNs => 3
  }

  /** The registry lists every category exactly once, and names tell categories apart. */
  lemma RegistryCoversEachRoleOnce()
    ensures |AllRoles| == 4
    ensures forall r: RoleCategory :: r in AllRoles
    ensures forall i, j :: 0 <= i < j < |AllRoles| ==> AllRoles[i] != AllRoles[j]
    ensures forall i :: 0 <= i < |AllRoles| ==> RoleIndex(AllRoles[i]) == i
    ensures forall r1: RoleCategory, r2: RoleCategory :: RoleName(r1) == RoleName(r2) ==> r1 == r2
  {
    forall r: RoleCategory ensures r in AllRoles {
      assert AllRoles[RoleIndex(r)] == r;
    }
  }

  datatype Weights = Weights(skills: real, experience: real, education: real, certifications: real)

  datatype RoleProfile = RoleProfile(
    skills: seq<string>,
    experience: seq<string>,
    education: seq<string>,
    certifications: seq<string>,
    weights: Weights)

  /** No keyword is the empty string (an empty keyword would match every text). */
  ghost predicate NonEmptyKeywords(keywords: seq<string>)
  {
    |keywords| > 0 && forall i :: 0 <= i < |keywords| ==> |keywords[i]| > 0
  }

  /**
   * What the scorer needs of a profile for its score to range over [0, 100]: every
   * keyword list non-empty (no division by zero), no empty keyword, and non-negative
   * weights that sum to 1.
   */
  ghost predicate WellFormed(p: RoleProfile)
  {
    && NonEmptyKeywords(p.skills)
    && NonEmptyKeywords(p.experience)
    && NonEmptyKeywords(p.education)
    && NonEmptyKeywords(p.certifications)
    && p.weights.skills >= 0.0 && p.weights.experience >= 0.0
    && p.weights.education >= 0.0 && p.weights.certifications >= 0.0
    && p.weights.skills + p.weights.experience + p.weights.education + p.weights.certifications == 1.0
  }

  /** `roleKeywords[role]`. */
  function Profile(r: RoleCategory): RoleProfile
  {
    match r
    case CustomerService =>
      RoleProfile(CustomerServiceSkills, CustomerServiceExperience,
                  CustomerServiceEducation, CustomerServiceCertifications,
                  Weights(0.3, 0.4, 0.15, 0.15))
    case MedicalAssistants =>
      RoleProfile(MedicalAssistantsSkills, MedicalAssistantsExperience,
                  MedicalAssistantsEducation, MedicalAssistantsCertifications,
                  Weights(0.35, 0.35, 0.2, 0.1))
    case NPs =>
      RoleProfile(NPsSkills, NPsExperience,
                  NPsEducation, NPsCertifications,
                  Weights(0.3, 0.3, 0.25, 0.15))
    case RNs =>
      RoleProfile(RNsSkills, RNsExperience,
                  RNsEducation, RNsCertifications,
                  Weights(0.3, 0.35, 0.2, 0.15))
  }

  const CustomerServiceSkills: seq<string> :=
    [ "customer service", "communication", "phone", "email", "problem solving",
      "multitasking", "appointment scheduling", "data entry", "typing",
      "conflict resolution", "empathy", "active listening", "patience",
      "microsoft office", "excel", "word", "outlook", "crm" ]

  const CustomerServiceExperience: seq<string> :=
    [ "customer service", "receptionist", "front desk", "call center",
      "client relations", "patient relations", "administrative assistant",
      "office coordinator", "scheduler" ]

  const CustomerServiceEducation: seq<string> :=
    [ "high school", "associate", "bachelor", "business", "communication",
      "hospitality", "healthcare administration" ]

  const CustomerServiceCertifications: seq<string> :=
    [ "customer service certification", "medical receptionist" ]

  const MedicalAssistantsSkills: seq<string> :=
    [ "patient care", "vitals", "blood pressure", "temperature", "height",
      "weight", "phlebotomy", "injection", "ekg", "ekg", "ecg",
      "wound care", "dressing", "sutures", "medical terminology",
      "ehr", "electronic health records", "appointment scheduling",
      "insurance", "billing", "coding", "cpt", "icd-10", "cpr", "bls",
      "medication administration", "specimen collection", "urinalysis",
      "point of care testing", "glucose monitoring" ]

  const MedicalAssistantsExperience: seq<string> :=
    [ "medical assistant", "clinical assistant", "patient care technician",
      "certified medical assistant", "cma", "pct", "nursing assistant",
      "healthcare assistant" ]

  const MedicalAssistantsEducation: seq<string> :=
    [ "medical assistant", "cma", "certified medical assistant",
      "associate", "diploma", "certificate program", "healthcare" ]

  const MedicalAssistantsCertifications: seq<string> :=
    [ "cma", "certified medical assistant", "cpr", "bls", "certified",
      "phlebotomy certification", "ekg certification" ]

  const NPsSkills: seq<string> :=
    [ "patient assessment", "diagnosis", "treatment", "prescribing",
      "medication management", "care plan", "chronic disease management",
      "primary care", "family practice", "internal medicine",
      "patient education", "health promotion", "preventive care",
      "clinical decision making", "diagnostic reasoning", "ehr",
      "telemedicine", "collaborative practice", "autonomous practice" ]

  const NPsExperience: seq<string> :=
    [ "nurse practitioner", "np", "advanced practice", "primary care provider",
      "family nurse practitioner", "fnp", "adult gerontology", "agnp",
      "pediatric nurse practitioner", "pnp", "clinical nurse specialist",
      "provider", "clinician" ]

  const NPsEducation: seq<string> :=
    [ "nurse practitioner", "np", "master of science in nursing", "msn",
      "doctor of nursing practice", "dnp", "advanced practice",
      "bachelor of science in nursing", "bsn", "registered nurse" ]

  const NPsCertifications: seq<string> :=
    [ "nurse practitioner", "np certification", "fnp", "agnp", "pnp",
      "ancc", "aanp", "board certified", "license", "prescriptive authority",
      "dea", "controlled substances" ]

  const RNsSkills: seq<string> :=
    [ "nursing", "patient care", "assessment", "care plan", "medication",
      "iv therapy", "wound care", "patient education", "discharge planning",
      "documentation", "charting", "care coordination", "collaboration",
      "critical thinking", "clinical judgment", "patient advocacy",
      "medication administration", "nursing process", "nursing diagnosis",
      "acute care", "chronic care", "rehabilitation", "geriatrics" ]

  const RNsExperience: seq<string> :=
    [ "registered nurse", "rn", "staff nurse", "nurse", "charge nurse",
      "clinical nurse", "bedside nurse", "nurse manager", "nurse supervisor",
      "hospital", "clinic", "long term care", "skilled nursing", "home health",
      "icu", "er", "emergency", "med surg", "medical surgical",
      "critical care", "cardiac", "orthopedic", "oncology", "pediatric" ]

  const RNsEducation: seq<string> :=
    [ "registered nurse", "rn", "bachelor of science in nursing", "bsn",
      "associate degree in nursing", "adn", "diploma in nursing",
      "nursing program", "nursing school" ]

  const RNsCertifications: seq<string> :=
    [ "registered nurse", "rn license", "nclex", "state license",
      "bls", "cpr", "acls", "pals", "tncc", "certified",
      "cvicu", "ccrn", "oncology certified", "wound care certified" ]

  /** Every profile of the registry is well formed; in particular its weights sum to 1. */
  lemma ProfileWellFormed(r: RoleCategory)
    ensures WellFormed(Profile(r))
  {
    match r
    case CustomerService => CustomerServiceWellFormed();
    case MedicalAssistants => MedicalAssistantsWellFormed();
    case NPs => NPsWellFormed();
    case RNs => RNsWellFormed();
  }

  lemma CustomerServiceWellFormed()
    ensures WellFormed(Profile(CustomerService))
  {
    assert NonEmptyKeywords(CustomerServiceSkills);
    assert NonEmptyKeywords(CustomerServiceExperience);
    assert NonEmptyKeywords(CustomerServiceEducation);
    assert NonEmptyKeywords(CustomerServiceCertifications);
  }

  lemma MedicalAssistantsWellFormed()
    ensures WellFormed(Profile(MedicalAssistants))
  {
    assert NonEmptyKeywords(MedicalAssistantsSkills);
    assert NonEmptyKeywords(MedicalAssistantsExperience);
    assert NonEmptyKeywords(MedicalAssistantsEducation);
    assert NonEmptyKeywords(MedicalAssistantsCertifications);
  }

  lemma NPsWellFormed()
    ensures WellFormed(Profile(NPs))
  {
    assert NonEmptyKeywords(NPsSkills);
    assert NonEmptyKeywords(NPsExperience);
    assert NonEmptyKeywords(NPsEducation);
    assert NonEmptyKeywords(NPsCertifications);
  }

  lemma RNsWellFormed()
    ensures WellFormed(Profile(RNs))
  {
    assert NonEmptyKeywords(RNsSkills);
    assert NonEmptyKeywords(RNsExperience);
    assert NonEmptyKeywords(RNsEducation);
    assert NonEmptyKeywords(RNsCertifications);
  }
}

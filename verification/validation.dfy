/** The shared form vocabulary: the project categories, the project form
    schema, and the catalogue of vibe tools with its groups.

    A schema check reports every failing field, in the order the schema
    declares them; a form passes when that list is empty. URL syntax is not
    modelled: the predicate `isUrl` stands for the validator's URL test. */
module Validation {
  import opened Wrappers
  import opened Model
  import Listing

  /** One entry of the category list shown in forms and filters. */
  datatype CategoryEntry = CategoryEntry(value: string, display: string)

  /** PROJECT_CATEGORIES: form value and display label, in display order. */
  const ProjectCategories: seq<CategoryEntry> := [
    CategoryEntry("ENGINEERING", "Engineering"),
    CategoryEntry("LLMS", "LLMs"),
    CategoryEntry("PRODUCTIVITY", "Productivity"),
    CategoryEntry("MARKETING", "Marketing & Sales"),
    CategoryEntry("DESIGN", "Design"),
    CategoryEntry("SOCIAL", "Social"),
    CategoryEntry("FINANCE", "Finance"),
    CategoryEntry("AI_AGENTS", "AI Agents"),
    CategoryEntry("OTHER", "Other")
  ]

  /** The wire name of a category. */
  function CategoryValue(c: ProjectCategory): string {
    match c
    case Engineering => "ENGINEERING"
    case Llms => "LLMS"
    case Productivity => "PRODUCTIVITY"
    case Marketing => "MARKETING"
    case Design => "DESIGN"
    case Social => "SOCIAL"
    case Finance => "FINANCE"
    case AiAgents => "AI_AGENTS"
    case Other => "OTHER"
  }

  /** The schema's category enum: the category a form value names, if any. */
  function ParseCategory(s: string): (r: Option<ProjectCategory>)
    ensures r.Some? ==> CategoryValue(r.value) == s
  {
    if s == "ENGINEERING" then Some(Engineering)
    else if s == "LLMS" then Some(Llms)
    else if s == "PRODUCTIVITY" then Some(Productivity)
    else if s == "MARKETING" then Some(Marketing)
    else if s == "DESIGN" then Some(Design)
    else if s == "SOCIAL" then Some(Social)
    else if s == "FINANCE" then Some(Finance)
    else if s == "AI_AGENTS" then Some(AiAgents)
    else if s == "OTHER" then Some(Other)
    else None
  }

  /** Parsing inverts naming: every category's wire name parses back to it. */
  lemma CategoryRoundTrip(c: ProjectCategory)
    ensures ParseCategory(CategoryValue(c)) == Some(c)
  {
  }

  /** `s` is the value of some entry of the category list. */
  predicate ListedCategory(s: string) {
    exists i :: 0 <= i < |ProjectCategories| && ProjectCategories[i].value == s
  }

  /** The enum accepts exactly the values the category list offers. */
  lemma EnumMatchesCategoryList(s: string)
    ensures ParseCategory(s).Some? <==> ListedCategory(s)
  {
    if ParseCategory(s).Some? {
      var i := match ParseCategory(s).value
        case Engineering => 0 case Llms => 1 case Productivity => 2
        case Marketing => 3 case Design => 4 case Social => 5
        case Finance => 6 case AiAgents => 7 case Other => 8;
      assert ProjectCategories[i].value == s;
    }
    if ListedCategory(s) {
      var i :| 0 <= i < |ProjectCategories| && ProjectCategories[i].value == s;
      assert i in {0, 1, 2, 3, 4, 5, 6, 7, 8};
    }
  }

  /** The fields of the project form, in schema order. */
  datatype ProjectField = Title | Tagline | Description | DemoUrl | RepoUrl | TechStack | CategoryField

  const ProjectFields: seq<ProjectField> :=
    [Title, Tagline, Description, DemoUrl, RepoUrl, TechStack, CategoryField]

  /** The submitted project form. `category` is the value after the action
      has replaced an empty one by "OTHER". */
  datatype ProjectInput = ProjectInput(
    title: string,
    tagline: string,
    description: string,
    demoUrl: string,
    repoUrl: string,
    techStack: seq<string>,
    category: string)

  /** A project form that passed the schema. */
  datatype ProjectData = ProjectData(
    title: string,
    tagline: string,
    description: string,
    demoUrl: string,
    repoUrl: string,
    techStack: seq<string>,
    category: ProjectCategory)

  /** A valid URL, or the empty string (an optional URL left empty). */
  predicate UrlOrEmpty(s: string, isUrl: string -> bool) {
    s == "" || isUrl(s)
  }

  /** The rule the schema states for one field. */
  predicate ProjectFieldOk(input: ProjectInput, isUrl: string -> bool, f: ProjectField) {
    match f
    case Title => 3 <= |input.title| <= 100
    case Tagline => 10 <= |input.tagline| <= 140
    case Description => 50 <= |input.description| <= 5000
    case DemoUrl => UrlOrEmpty(input.demoUrl, isUrl)
    case RepoUrl => UrlOrEmpty(input.repoUrl, isUrl)
    case TechStack => |input.techStack| >= 1
    case CategoryField => ParseCategory(input.category).Some?
  }

  /** The one-field issue list of a rule: empty when the rule holds. */
  function Check<F>(ok: bool, f: F): (r: seq<F>)
    ensures f in r <==> !ok
    ensures |r| <= 1
  {
    if ok then [] else [f]
  }

  /** The fields among `fields` whose rule fails, in the order given. */
  function IssuesAmong(input: ProjectInput, isUrl: string -> bool, fields: seq<ProjectField>): (r: seq<ProjectField>)
    ensures forall f :: f in r <==> f in fields && !ProjectFieldOk(input, isUrl, f)
    ensures |r| <= |fields|
  {
    if fields == [] then []
    else Check(ProjectFieldOk(input, isUrl, fields[0]), fields[0]) + IssuesAmong(input, isUrl, fields[1..])
  }

  lemma EveryFieldListed()
    ensures forall f :: f in ProjectFields
  {
    forall f: ProjectField ensures f in ProjectFields {
      match f
      case Title => assert ProjectFields[0] == f;
      case Tagline => assert ProjectFields[1] == f;
      case Description => assert ProjectFields[2] == f;
      case DemoUrl => assert ProjectFields[3] == f;
      case RepoUrl => assert ProjectFields[4] == f;
      case TechStack => assert ProjectFields[5] == f;
      case CategoryField => assert ProjectFields[6] == f;
    }
  }

  /** The failing fields, each once, in schema order. */
  function ProjectIssues(input: ProjectInput, isUrl: string -> bool): (r: seq<ProjectField>)
    ensures forall f :: f in r <==> !ProjectFieldOk(input, isUrl, f)
    ensures |r| <= |ProjectFields|
  {
    EveryFieldListed();
    IssuesAmong(input, isUrl, ProjectFields)
  }

  /** `projectSchema.safeParse`. */
  function ValidateProject(input: ProjectInput, isUrl: string -> bool): (r: Result<ProjectData, seq<ProjectField>>)
    ensures r.Success? <==>
              && 3 <= |input.title| <= 100
              && 10 <= |input.tagline| <= 140
              && 50 <= |input.description| <= 5000
              && (input.demoUrl == "" || isUrl(input.demoUrl))
              && (input.repoUrl == "" || isUrl(input.repoUrl))
              && |input.techStack| >= 1
              && input.category in {"ENGINEERING", "LLMS", "PRODUCTIVITY", "MARKETING", "DESIGN",
                                     "SOCIAL", "FINANCE", "AI_AGENTS", "OTHER"}
    ensures r.Success? ==>
              && r.value.title == input.title
              && r.value.tagline == input.tagline
              && r.value.description == input.description
              && r.value.demoUrl == input.demoUrl
              && r.value.repoUrl == input.repoUrl
              && r.value.techStack == input.techStack
              && CategoryValue(r.value.category) == input.category
    ensures r.Failure? ==> r.error != [] && forall f :: f in r.error <==> !ProjectFieldOk(input, isUrl, f)
  {
    var issues := ProjectIssues(input, isUrl);
    if issues == [] then
      assert ProjectFieldOk(input, isUrl, Title) && ProjectFieldOk(input, isUrl, Tagline);
      assert ProjectFieldOk(input, isUrl, Description) && ProjectFieldOk(input, isUrl, DemoUrl);
      assert ProjectFieldOk(input, isUrl, RepoUrl) && ProjectFieldOk(input, isUrl, TechStack);
      assert ProjectFieldOk(input, isUrl, CategoryField);
      Success(ProjectData(input.title, input.tagline, input.description, input.demoUrl, input.repoUrl,
                          input.techStack, ParseCategory(input.category).value))
    else
      assert !ProjectFieldOk(input, isUrl, issues[0]);
      Failure(issues)
  }

  /** One entry of VIBE_TOOLS. */
  datatype Tool = Tool(value: string, display: string, category: string)

  /** VIBE_TOOLS: the tools offered by the project form's multi-select. */
  const VibeTools: seq<Tool> := [
    Tool("claude", "Claude", "AI Assistant"),
    Tool("cursor", "Cursor", "AI IDE"),
    Tool("replit", "Replit", "Cloud IDE"),
    Tool("v0", "v0 by Vercel", "AI UI"),
    Tool("bolt", "Bolt.new", "AI Builder"),
    Tool("copilot", "GitHub Copilot", "AI Assistant"),
    Tool("chatgpt", "ChatGPT", "AI Assistant"),
    Tool("gemini", "Gemini", "AI Assistant"),
    Tool("windsurf", "Windsurf", "AI IDE"),
    Tool("lovable", "Lovable", "AI Builder"),
    Tool("aider", "Aider", "AI Coding"),
    Tool("cline", "Cline", "AI Coding"),
    Tool("devin", "Devin", "AI Agent"),
    Tool("nextjs", "Next.js", "Framework"),
    Tool("react", "React", "Framework"),
    Tool("tailwind", "Tailwind CSS", "Styling"),
    Tool("typescript", "TypeScript", "Language"),
    Tool("prisma", "Prisma", "Database"),
    Tool("supabase", "Supabase", "Backend"),
    Tool("vercel", "Vercel", "Deployment")
  ]

  /** TOOL_CATEGORIES: the group headings of the multi-select, in order. */
  const ToolCategories: seq<string> := [
    "AI Assistant", "AI IDE", "AI Builder", "AI Coding", "AI Agent", "AI UI", "Cloud IDE",
    "Framework", "Styling", "Language", "Database", "Backend", "Deployment"
  ]

  /** Every tool's category is one of the group headings, so grouping the
      tools by heading loses none of them. */
  lemma EveryToolHasGroup(i: nat)
    requires i < |VibeTools|
    ensures VibeTools[i].category in ToolCategories
  {
  }

  /** No two tools share a value, so a value names at most one tool. */
  lemma ToolValuesDistinct(i: nat, j: nat)
    requires i < j < |VibeTools|
    ensures VibeTools[i].value != VibeTools[j].value
  {
  }
}

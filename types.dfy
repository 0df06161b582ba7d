/** The canonical domain records the presentation layer consumes. */
module Types {
  import opened Options

  /** The five content pillars. */
  datatype Pillar =
    | ComplianceRegulation
    | TechnologyOperations
    | PracticeManagement
    | ClientStrategy
    | IndustryInsights

  /** The display name of a pillar, which is also the string a record carries. */
  function PillarName(p: Pillar): string {
    match p
    case ComplianceRegulation => "Compliance & Regulation"
    case TechnologyOperations => "Technology & Operations"
    case PracticeManagement => "Practice Management"
    case ClientStrategy => "Client Strategy"
    case IndustryInsights => "Industry Insights"
  }

  /** The pillars in the fixed order the site lists them. */
  const AllPillars: seq<Pillar> :=
    [ComplianceRegulation, TechnologyOperations, PracticeManagement, ClientStrategy, IndustryInsights]

  /** Whether a string is the name of one of the five pillars. */
  predicate IsPillarName(s: string) {
    s == "Compliance & Regulation" || s == "Technology & Operations" ||
    s == "Practice Management" || s == "Client Strategy" || s == "Industry Insights"
  }

  /** The pillar list is complete and without repetition, and the names
      identify the pillars: `Pillar` is exactly the closed set of five
      strings. */
  lemma PillarsClosed()
    ensures |AllPillars| == 5
    ensures forall p: Pillar :: p in AllPillars
    ensures forall i, j :: 0 <= i < j < 5 ==> PillarName(AllPillars[i]) != PillarName(AllPillars[j])
    ensures forall s :: IsPillarName(s) <==> exists p: Pillar :: PillarName(p) == s
  {
    forall p: Pillar ensures p in AllPillars {
      match p
      case ComplianceRegulation => assert AllPillars[0] == p;
      case TechnologyOperations => assert AllPillars[1] == p;
      case PracticeManagement => assert AllPillars[2] == p;
      case ClientStrategy => assert AllPillars[3] == p;
      case IndustryInsights => assert AllPillars[4] == p;
    }
    forall s | IsPillarName(s) ensures exists p: Pillar :: PillarName(p) == s {
      if s == "Compliance & Regulation" { assert PillarName(ComplianceRegulation) == s; }
      else if s == "Technology & Operations" { assert PillarName(TechnologyOperations) == s; }
      else if s == "Practice Management" { assert PillarName(PracticeManagement) == s; }
      else if s == "Client Strategy" { assert PillarName(ClientStrategy) == s; }
      else { assert PillarName(IndustryInsights) == s; }
    }
  }

  /** An author. `photo` is always present; the social links are optional. */
  datatype Author = Author(
    id: string,
    name: string,
    title: string,
    bio: string,
    photo: string,
    linkedin: Option<string>,
    twitter: Option<string>,
    email: Option<string>)

  datatype Tag = Tag(id: string, name: string, slug: string)

  /** An article: exactly one pillar, exactly one author, a list of tags.
      The pillar is held as the string the record carries; it is one of the
      five pillar names whenever the record came from well-formed data. */
  datatype Article = Article(
    id: string,
    title: string,
    subtitle: Option<string>,
    slug: string,
    content: string,
    excerpt: string,
    pillar: string,
    tags: seq<Tag>,
    author: Author,
    featuredImage: string,
    publishDate: string,
    readTime: int,
    isFeatured: Option<bool>)

  predicate HasPillar(a: Article, p: Pillar) {
    a.pillar == PillarName(p)
  }
}

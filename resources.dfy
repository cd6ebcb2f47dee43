// The strategy guides (src/data/resources.js): each guide's identifier and
// section, the five section categories, and getResourcesBySection. Titles,
// durations and markdown bodies are content.
module Resources {
  import opened Seqs

  datatype Resource = Resource(id: string, section: string)

  const ResourceCategories: seq<string> := ["english", "math", "reading", "science", "general"]

  const AllResources: seq<Resource> := [
    Resource("comma-rules", "english"),
    Resource("agreement-rules", "english"),
    Resource("economy-redundancy", "english"),
    Resource("transitions", "english"),
    Resource("emq-cmq", "english"),
    Resource("reading-strategies", "reading"),
    Resource("math-formulas", "math"),
    Resource("math-strategies", "math"),
    Resource("science-strategies", "science"),
    Resource("test-day-tips", "general"),
    Resource("careless-mistakes", "general")
  ]

  function InSection(section: string): Resource -> bool
  {
    (r: Resource) => r.section == section
  }

  /** getResourcesBySection: the whole list for 'all', otherwise the guides
      of that section in list order. */
  function ResourcesBySection(resources: seq<Resource>, section: string): (shown: seq<Resource>)
    ensures section == "all" ==> shown == resources
    ensures section != "all" ==> forall r :: r in shown <==> r in resources && r.section == section
    ensures section != "all" ==> multiset(shown) == multiset(Filter(InSection(section), resources))
    ensures IsSubsequence(shown, resources)
  {
    if section == "all" then
      IsSubsequenceReflexive(resources);
      resources
    else
      FilterMembers(InSection(section), resources);
      FilterIsSubsequence(InSection(section), resources);
      Filter(InSection(section), resources)
  }

  /** A section no guide carries gives the empty list. */
  lemma {:induction false} UnknownSectionIsEmpty(resources: seq<Resource>, section: string)
    requires section != "all"
    requires forall i :: 0 <= i < |resources| ==> resources[i].section != section
    ensures ResourcesBySection(resources, section) == []
  {
    FilterNoneKept(InSection(section), resources);
  }

  /** Every guide is filed under one of the five categories, so the
      category lists together show every guide. */
  lemma SectionsAreCategories()
    ensures forall i :: 0 <= i < |AllResources| ==> AllResources[i].section in ResourceCategories
  {
  }

  /** Each guide appears under exactly its own category: a multiset count
      per category adds up to the whole list. */
  lemma CategoriesPartitionResources(resources: seq<Resource>, x: Resource)
    requires x.section in ResourceCategories
    ensures multiset(ResourcesBySection(resources, x.section))[x] == multiset(resources)[x]
    ensures forall c :: c in ResourceCategories && c != x.section ==>
              multiset(ResourcesBySection(resources, c))[x] == 0
  {
    CountInSection(resources, x, x.section);
    forall c | c in ResourceCategories && c != x.section
      ensures multiset(ResourcesBySection(resources, c))[x] == 0
    {
      CountInSection(resources, x, c);
    }
  }

  /** A guide's count under one section other than 'all'. */
  lemma CountInSection(resources: seq<Resource>, x: Resource, section: string)
    requires section != "all"
    ensures multiset(ResourcesBySection(resources, section))[x] ==
            if x.section == section then multiset(resources)[x] else 0
  {
    FilterCount(InSection(section), resources, x);
  }
}

/**
 * Service categories: choosing a slug no stored category uses, and the
 * guards that refuse deleting a category still in use.
 */
module Categories {
  import opened Wrappers
  import opened Records

  /** 400 for the first two, 409 for the guards, 404 for an unknown id. */
  datatype CategoryError = BlankName | EmptySlug | SlugUnavailable | HasServices | HasChildren | NotFound

  predicate IsSpace(c: char) {
    c == ' ' || c == '\t' || c == '\n' || c == '\r' || c == '\U{000B}' || c == '\U{000C}' ||
    '\U{001C}' <= c <= '\U{001F}'
  }

  /** The name is empty once surrounding whitespace is stripped. */
  predicate IsBlank(name: string) {
    forall i :: 0 <= i < |name| ==> IsSpace(name[i])
  }

  predicate SlugTaken(categories: map<CategoryId, Category>, slug: string) {
    exists k :: k in categories && categories[k].slug == slug
  }

  /** The `i`-th slug tried: the base slug, then the base slug with the `i`-th random suffix. */
  function SlugCandidate(base: string, suffixes: seq<string>, i: nat): string
    requires i <= |suffixes|
  {
    if i == 0 then base else base + "-" + suffixes[i - 1]
  }

  predicate ServiceUses(services: map<ServiceId, Service>, id: CategoryId) {
    exists s :: s in services && services[s].categoryId == id
  }

  predicate HasChild(categories: map<CategoryId, Category>, id: CategoryId) {
    exists k :: k in categories && categories[k].parentId == Some(id)
  }

  /** Every parent reference and every service's category names a stored category. */
  predicate Resolved(services: map<ServiceId, Service>, categories: map<CategoryId, Category>) {
    && (forall k :: k in categories && categories[k].parentId.Some? ==> categories[k].parentId.value in categories)
    && (forall s :: s in services ==> services[s].categoryId in categories)
  }

  /** The categories after a delete request, or the error the handler returns. */
  function Delete(services: map<ServiceId, Service>, categories: map<CategoryId, Category>, id: CategoryId)
    : Result<map<CategoryId, Category>, CategoryError>
  {
    if ServiceUses(services, id) then Failure(HasServices)
    else if HasChild(categories, id) then Failure(HasChildren)
    else if id !in categories then Failure(NotFound)
    else Success(categories - {id})
  }

  /**
   * On any store, a delete succeeds iff no service and no category refers
   * to the id and the id is stored, and removes exactly that category; so
   * on a store whose references all resolve it never leaves a dangling
   * parent or service reference behind.
   */
  lemma DeleteKeepsResolved(services: map<ServiceId, Service>, categories: map<CategoryId, Category>, id: CategoryId)
    ensures var r := Delete(services, categories, id);
      && (r.Success? <==> !ServiceUses(services, id) && !HasChild(categories, id) && id in categories)
      && (r.Success? ==> r.value.Keys == categories.Keys - {id})
      && (r.Success? ==> forall k :: k in r.value ==> r.value[k] == categories[k])
      && (Resolved(services, categories) && r.Success? ==> Resolved(services, r.value))
  {
  }
}

/**
 * The catalog's one entity: a product record of five settable properties,
 * validated declaratively by data annotations when it arrives in a request.
 */
module Products {
  import opened Wrappers
  import opened Text

  /**
   * A product. `Id` is the primary key; the three strings are C# references
   * and may be null; `Price` is a decimal that is only ever compared.
   */
  datatype Product = Product(
    id: int,
    name: Option<string>,
    description: Option<string>,
    price: real,
    category: Option<string>)

  const NameRequired := "Name is required."
  const PriceNonNegative := "Price must be a non-negative value."
  const CategoryRequired := "Category is required."

  /**
   * [Required] with its default AllowEmptyStrings = false: the value is
   * neither null, nor empty, nor made only of white space.
   */
  predicate Required(s: Option<string>) {
    !IsNullOrWhiteSpace(s)
  }

  /**
   * The messages data-annotation validation reports for `p`, property by
   * property in declaration order (Name, Price, Category). [Required] on the
   * non-nullable decimal Price never fails; its [Range] upper bound
   * (double.MaxValue) lies beyond every decimal, so only the lower bound 0 bites.
   */
  function Validate(p: Product): (errors: seq<string>)
    ensures NameRequired in errors <==> IsNullOrWhiteSpace(p.name)
    ensures PriceNonNegative in errors <==> p.price < 0.0
    ensures CategoryRequired in errors <==> IsNullOrWhiteSpace(p.category)
    ensures |errors| <= 3
  {
    (if Required(p.name) then [] else [NameRequired])
    + (if p.price >= 0.0 then [] else [PriceNonNegative])
    + (if Required(p.category) then [] else [CategoryRequired])
  }

  /** A product that passes validation. */
  predicate Valid(p: Product) {
    Validate(p) == []
  }

  /**
   * A valid product has a non-blank name, a non-blank category and a
   * non-negative price, and every product with those three is valid.
   */
  lemma ValidIff(p: Product)
    ensures Valid(p) <==>
      && p.name.Some? && p.name.value != "" && !IsNullOrWhiteSpace(p.name)
      && p.category.Some? && p.category.value != "" && !IsNullOrWhiteSpace(p.category)
      && p.price >= 0.0
  {
  }

  /** Description and Id carry no constraint: changing them never changes validity. */
  lemma UnconstrainedFields(p: Product, id: int, description: Option<string>)
    ensures Valid(p.(id := id, description := description)) == Valid(p)
  {
  }

  /** A string of white space alone is rejected like null and the empty string. */
  lemma BlankNameRejected(p: Product)
    requires p.name.Some? && |p.name.value| > 0
    requires forall i :: 0 <= i < |p.name.value| ==> p.name.value[i] == ' '
    ensures !Valid(p)
  {
  }
}

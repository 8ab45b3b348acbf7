/** The WordPress REST API records the migration reads. Every field the code
    tests for truthiness is optional; `None` stands for a missing field. */
module WordPress {
  import opened Common

  /** The collection types the REST API is queried for (`WordPressDataType`). */
  datatype WpType = WpPosts | WpPages | WpCategories | WpTags | WpUsers
  {
    /** The type's path segment: the type name itself (`${BASE_URL}/${type}`). */
    function Path(): string
    {
      match this
      case WpPosts => "posts"
      case WpPages => "pages"
      case WpCategories => "categories"
      case WpTags => "tags"
      case WpUsers => "users"
    }
  }

  /** A post or page (`WP_REST_API_Post`). `title` holds `title.rendered`;
      `None` is a record without a `title` object. `categories` and `tags` are
      `None` when the field is not an array. */
  datatype WpPost = WpPost(
    id: nat,
    title: Option<string>,
    slug: Option<string>,
    author: Option<nat>,
    categories: Option<seq<nat>>,
    tags: Option<seq<nat>>,
    date: Option<string>,
    modified: Option<string>,
    status: Option<string>,
    sticky: Option<bool>)

  /** A user (`WP_REST_API_User`). */
  datatype WpUser = WpUser(
    id: nat,
    name: Option<string>,
    slug: Option<string>,
    url: Option<string>,
    description: Option<string>)

  /** A category or tag (`WP_REST_API_Term`). */
  datatype WpTerm = WpTerm(id: nat, name: Option<string>, slug: Option<string>)

  /** The decoded JSON body of one page of a collection: an array of records, or
      anything else (`Array.isArray` fails). */
  datatype Payload = Records(records: seq<WpPost>) | NotAnArray
}

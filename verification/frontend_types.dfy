/** The shapes the front end receives from the API. Optional properties are
    `Option`s; identifiers are strings, except category and tag ids. */
module FrontendTypes {
  import opened Wrappers

  datatype Category = Category(id: int, name: string, slug: string, description: Option<string>)

  datatype Author = Author(id: string, username: string, fullName: string)

  datatype Post = Post(
    id: string,
    title: string,
    slug: string,
    content: string,
    excerpt: Option<string>,
    featuredImage: Option<string>,
    status: string,
    viewCount: int,
    tags: seq<string>,
    categories: Option<seq<Category>>,
    author: Author)

  /** A comment as the comment tree endpoint returns it. */
  datatype Comment = Comment(id: string, content: string, parentId: Option<string>, replies: Option<seq<Comment>>)

  datatype Notification = Notification(id: string, kind: string, message: string, isRead: bool,
                                       relatedPostSlug: Option<string>)

  datatype SocialMedia = SocialMedia(
    id: string,
    name: string,
    url: string,
    iconName: string,
    displayOrder: Option<int>,
    isActive: bool)

  datatype CurrentUser = CurrentUser(id: string, username: string, fullName: string, role: string,
                                     unreadNotificationCount: int)

  /** One page of posts. */
  datatype PostPage = PostPage(content: seq<Post>, totalPages: int)
}

/** The failures the domain model raises. */
module Errors {

  /** Which kind of entity was being built when an attribute was missing. */
  datatype EntityKind = ProjectKind | StoryKind

  datatype Error =
      /** `MissingAttributeError`: a required attribute (only `id`) was absent or null. */
    | MissingAttribute(entity: EntityKind, attribute: string)
      /** `VelocityEqualToZeroError`: a day projection on a project whose velocity is zero. */
    | VelocityEqualToZero(projectId: int)
      /** `VelocityAlwaysEqualToZero`: the project never recorded a non-zero velocity. */
    | VelocityAlwaysEqualToZero

  /** The single required attribute of both entities. */
  const IdAttribute: string := "id"
}

/**
 * The one persisted blob that holds the live test. Each component that uses
 * the test hook keeps its own copy of it, read when the component mounts and
 * updated only by that component's own save or clear.
 */
module TestStore {
  import opened Wrappers
  import opened Types

  class LiveTestStore {
    var saved: Option<TestConfig>

    constructor (initial: Option<TestConfig>)
      ensures saved == initial
    {
      saved := initial;
    }

    /** `saveTestConfig`'s write of the blob. */
    method Save(config: TestConfig)
      modifies this
      ensures saved == Some(config)
    {
      saved := Some(config);
    }

    /** `clearTestConfig`'s removal of the blob. */
    method Clear()
      modifies this
      ensures saved == None
    {
      saved := None;
    }
  }
}

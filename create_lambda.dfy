/**
 * The "create new Lambda function" action: built for a handler found in the editor, it insists on
 * having the element and the handler resolver that go with it, and it offers itself only when the
 * handlers at that element are not already functions of a CloudFormation template in the project.
 */
module CreateLambda {
  import opened Wrappers

  /** A PSI element, by identity. */
  type Element = nat

  /** A smart pointer to a PSI element; the element it points to may have gone. */
  datatype ElementPointer = ElementPointer(element: Option<Element>)

  /** The language's handler resolver, by identity; what it reports is an input of `update`. */
  datatype HandlerResolver = HandlerResolver(id: nat)

  /** The `IllegalArgumentException`s the constructor throws. */
  datatype ArgumentError = ElementPointerMissing | HandlerResolverMissing

  /** The action's properties. */
  datatype CreateLambdaFunction = CreateLambdaFunction(handlerName: Option<string>, elementPointer: Option<ElementPointer>,
                                                       lambdaHandlerResolver: Option<HandlerResolver>)

  /**
   * The constructor with its `init` check: a handler name needs an element pointer (checked
   * first) and a handler resolver; without a handler name anything goes.
   */
  function NewCreateLambdaFunction(handlerName: Option<string>, elementPointer: Option<ElementPointer>,
                                   lambdaHandlerResolver: Option<HandlerResolver>): (r: Result<CreateLambdaFunction, ArgumentError>)
    ensures r.Failure? <==> handlerName.Some? && (elementPointer.None? || lambdaHandlerResolver.None?)
    ensures r.Failure? ==> r.error == if elementPointer.None? then ElementPointerMissing else HandlerResolverMissing
    ensures r.Success? ==> r.value == CreateLambdaFunction(handlerName, elementPointer, lambdaHandlerResolver)
  {
    if handlerName.Some? && elementPointer.None? then Failure(ElementPointerMissing)
    else if handlerName.Some? && lambdaHandlerResolver.None? then Failure(HandlerResolverMissing)
    else Success(CreateLambdaFunction(handlerName, elementPointer, lambdaHandlerResolver))
  }

  /** Without a handler name, construction succeeds whatever pointer and resolver are passed. */
  lemma ConstructWithoutHandlerName(elementPointer: Option<ElementPointer>, lambdaHandlerResolver: Option<HandlerResolver>)
    ensures NewCreateLambdaFunction(None, elementPointer, lambdaHandlerResolver).Success?
  {
  }

  /** A successfully constructed action with a handler name has both a pointer and a resolver. */
  lemma ConstructedWithHandlerName(handlerName: Option<string>, elementPointer: Option<ElementPointer>,
                                   lambdaHandlerResolver: Option<HandlerResolver>)
    requires NewCreateLambdaFunction(handlerName, elementPointer, lambdaHandlerResolver).Success?
    requires handlerName.Some?
    ensures var action := NewCreateLambdaFunction(handlerName, elementPointer, lambdaHandlerResolver).value;
      action.elementPointer.Some? && action.lambdaHandlerResolver.Some?
  {
  }

  /** `listFunctions(project).mapNotNull { it.handler() }.toSet()`: the handlers that are not null. */
  function TemplateFunctionHandlers(functionHandlers: seq<Option<string>>): (r: set<string>)
    ensures forall h :: h in r <==> Some(h) in functionHandlers
  {
    if functionHandlers == [] then {}
    else
      var rest := TemplateFunctionHandlers(functionHandlers[1..]);
      assert forall h :: Some(h) in functionHandlers <==> functionHandlers[0] == Some(h) || Some(h) in functionHandlers[1..];
      match functionHandlers[0]
      case None => rest
      case Some(h) => {h} + rest
  }

  /** Template functions without a handler add nothing to the set the action compares against. */
  lemma NullHandlersContributeNothing(before: seq<Option<string>>, after: seq<Option<string>>)
    ensures TemplateFunctionHandlers(before + [None] + after) == TemplateFunctionHandlers(before + after)
  {
    var all := before + [None] + after;
    forall h ensures Some(h) in all <==> Some(h) in before + after {
      assert Some(h) in all <==> Some(h) in before || Some(h) in after;
    }
  }

  /**
   * `update(e)`: the new visibility of the action. It stays as it was when there is no event, no
   * handler name, no element behind the pointer or no resolver; otherwise the action is visible
   * exactly when none of the handlers the resolver determines is a template function's handler.
   */
  function Update(action: CreateLambdaFunction, visible: Option<bool>, templateFunctionHandlers: seq<Option<string>>,
                  resolvedHandlers: seq<string>): Option<bool>
  {
    if action.handlerName.None? || action.elementPointer.None? || action.elementPointer.value.element.None?
       || action.lambdaHandlerResolver.None? then
      visible
    else
      var known := TemplateFunctionHandlers(templateFunctionHandlers);
      var allowAction := forall i | 0 <= i < |resolvedHandlers| :: resolvedHandlers[i] !in known;
      if visible.None? then None else Some(allowAction)
  }

  /** Whether `update` has what it needs to decide: a handler name, a live element and a resolver. */
  predicate CanDecide(action: CreateLambdaFunction) {
    action.handlerName.Some? && action.elementPointer.Some? && action.elementPointer.value.element.Some?
    && action.lambdaHandlerResolver.Some?
  }

  /** Without a handler name, a live element or a resolver, `update` leaves the visibility alone. */
  lemma UpdateKeepsVisibility(action: CreateLambdaFunction, visible: Option<bool>, templateFunctionHandlers: seq<Option<string>>,
                              resolvedHandlers: seq<string>)
    requires !CanDecide(action)
    ensures Update(action, visible, templateFunctionHandlers, resolvedHandlers) == visible
  {
  }

  /**
   * Otherwise the action becomes visible exactly when no resolved handler is the non-null handler
   * of a template function, and hidden exactly when some resolved handler is.
   */
  lemma UpdateVisibleIffNoTemplateFunction(action: CreateLambdaFunction, visible: Option<bool>,
                                           templateFunctionHandlers: seq<Option<string>>, resolvedHandlers: seq<string>)
    requires CanDecide(action) && visible.Some?
    ensures var r := Update(action, visible, templateFunctionHandlers, resolvedHandlers);
      && r.Some?
      && (r.value <==> forall h | h in resolvedHandlers :: Some(h) !in templateFunctionHandlers)
      && (!r.value <==> exists h | h in resolvedHandlers :: Some(h) in templateFunctionHandlers)
  {
    var known := TemplateFunctionHandlers(templateFunctionHandlers);
    assert (forall i | 0 <= i < |resolvedHandlers| :: resolvedHandlers[i] !in known) <==>
           (forall h | h in resolvedHandlers :: Some(h) !in templateFunctionHandlers);
  }

  /** Without an event there is no presentation to change. */
  lemma UpdateWithoutEvent(action: CreateLambdaFunction, templateFunctionHandlers: seq<Option<string>>, resolvedHandlers: seq<string>)
    ensures Update(action, None, templateFunctionHandlers, resolvedHandlers) == None
  {
  }
}
